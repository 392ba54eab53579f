# AdbHarbor, verified

AdbHarbor lets several coding agents share the Android devices of one machine. A daemon leases devices to sessions,
queues the sessions that have to wait, takes leases back from the silent and the dead, cleans a device up between
sessions, and sits as a proxy in front of the adb server so that no client can bypass it. This project models that
daemon in Dafny and proves what its users rely on.

## How it is laid out

**The lease broker.** `BrokerModel` is the broker as a value: the lease and waiter objects by identifier, the four
tables that refer to them, the counter, the configuration, the running cleanup passes and the persisted snapshot.
Every critical section under the broker's mutex is one function on that value, and an `Event` names a critical section
with what it reads from outside (a clock, a request, a device listing). `Run` is any sequence of events: all
interleavings of all clients, of the reaper, the cleanup goroutines, configuration reloads and daemon restarts.
`Broker` is the same broker with its mutable tables and shared `Lease` and `Waiter` objects; each of its methods is
proved to be the corresponding function on the abstract state `Abs()`, so everything proved about runs holds of it;
`BrokerSteps` says how its loops and branches add up to those functions.

On top of that: `BrokerInvariant` (what every critical section keeps), `Reachable` (the same in plain words),
`DeviceMachine` (the tables implement one small machine per device: free, held with a queue, in cleanup with a queue),
`Handoffs` (bounded overtaking), `Wakeups` (who leaves a queue and how), `Recovery` (identifiers and crashes),
`Commands` (the running count), `Reclaim` (real time), `ReaperOrder` (map iteration order), `Snapshots` (what a tick
leaves in the persisted snapshot), `OneDevice` (acquire-any), `LocalAcquire` (a client of the blocking acquire among
everybody else's steps), `CleanupPasses` (passes among the other critical sections), `Terms` (what is written into a
lease that is made, renewed, claimed or restored, how long it lasts, and who ends it), `Registry` (who is registered,
and what waiters remember), `ClientTerms` (a client is given what it asked for), `LeaseObjects` (what critical
sections do to lease objects).

`Slices` has the edits of a queue in its own backing array; `Broker` makes its queue edits with them. `Blocking` is
the blocking acquire itself, its loops run on the `Broker` objects with arbitrary critical sections of others wherever
the mutex is free; it is proved to take exactly the steps of a `LocalAcquire` client.

**Session cleanup** on a device is in `Packages`, with arbitrary changes from outside between any two steps. **The
proxy** is in `Wire` (framing and the transport relay), `Readahead` (the bytes read while queued), `Requests` (what
clients ask for) and `Proxy`: one connection, run on the `Broker` objects and two connections. There a `Line` pairs
the broker with the upstream connection; each of its operations (acquire, beat, end, write, start of raw copying)
enters itself in one common record, and its invariant ties the record to the broker's state and to the bytes written.
So the order of the entries is the order of what was done. **Session classification** is in `Sessions`, over an
arbitrary process table. `Basics`, `Records` and `Selection` hold what the others share.

A tick of the reaper is the event `Visiting` for each lease it meets and then `Collecting`. The daemon holds the mutex
throughout a tick; runs here also allow other critical sections in between, so what is proved of all runs covers more
than the daemon does. `BrokerModel.Tick` is the unbroken tick, and `ReaperOrder` is about that one.

Where a result says what an operation writes or decides, it says so in the source's own fields, words and numbers (90
seconds, `emulator-`, 25 ancestors), not through the functions and constants that the operation itself uses.

Times are integers in nanoseconds. Every critical section takes its clock reading as a parameter and nothing is
assumed of it, not even that clocks advance, except where a lemma states what it needs (`Reclaim` needs ticks at most
`delta` apart; a tick's hand-offs read the clock no earlier than the tick did). Identifiers are the daemon's process
id and a counter; a new daemon is assumed to have a process id that no earlier daemon of the same state file had.

## Model

| member | source | states |
|---|---|---|
| Broker.Broker.Acquire | internal/harbor/broker.go:308-346 | grants, renews or queues exactly as the model's acquire, gives back a lease or a waiter and never both, and keeps the invariant, on shared mutable objects |
| Broker.Broker.Grant | internal/harbor/broker.go:465-486 | a fresh lease object in the table and in the snapshot, nothing else changed |
| Broker.Broker.DropWaiter | internal/harbor/broker.go:416-433 | the waiter is cut out of queue and registry; a lease it was handed meanwhile is taken back, when it still holds the device |
| Broker.Broker.GrantNext | internal/harbor/broker.go:707-766 | both loops of a hand-off together do what the model's hand-off does; only a waiter with an open channel is ever closed |
| Broker.Broker.Expire | internal/harbor/broker.go:691-703 | the device goes to a cleanup pass or to the next session, and the snapshot follows |
| Broker.Broker.Beat | internal/harbor/broker.go:436-455 | a heartbeat or end reaches exactly the live lease with that ID, or nothing |
| Broker.Broker.LeaseById | internal/harbor/broker.go:680-687 | the scan of the table finds the lease with the ID if and only if it is live |
| Broker.Broker.Poll | internal/harbor/broker.go:499-516 | a long poll of an unknown waiter changes nothing; a poll of a granted one claims its lease and leaves the registry |
| Broker.Broker.Wake | internal/harbor/broker.go:518-527 | the wake-up after a closed channel, for the HTTP and the in-process wait |
| Broker.Broker.Release | internal/harbor/broker.go:581-611 | answers no exactly when the request names a leased device of another session without forcing; takes the lease back as the model does |
| Broker.Broker.AcquireAny | internal/harbor/broker.go:225-263 | the sticky branch, the fresh pick or nothing; a lease given back is its device's, for the asking session; with none given back that session holds nothing and nothing has changed |
| Broker.Broker.Reap | internal/harbor/broker.go:770-804 | one tick meets every lease that was in the table, in the order the map yields, then collects granted waiters |
| Broker.Broker.FinishCleanup | internal/harbor/cleanup.go:110-114 | the last critical section of a pass ends that pass only and hands its device on |
| Broker.Broker.StoreBaseline | internal/harbor/cleanup.go:76-81 | a package list lands on the live lease it was taken for, or nowhere |
| Broker.Broker.SaveState | internal/harbor/broker.go:830-843 | the snapshot becomes exactly the leases in the table |
| Broker.Broker.LoadState | internal/harbor/broker.go:845-864 | a new daemon's tables after reading the snapshot of any earlier state |
| Broker.Broker.ScanQueue | internal/harbor/broker.go:709-720 | the stale filter on the queue's own array, overwritten while it is read, keeps the polling waiters in order and closes and unregisters the others |
| Slices.KeepInPlace | internal/harbor/broker.go:711-719 | one turn of that filter's array: the kept part grows by the element, the part still to be read is untouched |
| Slices.RemoveInPlace | internal/harbor/broker.go:421-426 | shifting a leaving waiter's successors down removes its first occurrence, if it has one, and keeps all others in order |
| Broker.Without | internal/harbor/broker.go:421-426 | so a leaving waiter's queue has exactly the others, in order |
| LeaseObjects.ObjectStep | internal/harbor/broker.go:308-864 | a critical section adds lease objects and updates them, but never changes whose lease of which device an object is, and only a stored listing changes a baseline |
| LeaseObjects.NewIsLive | internal/harbor/broker.go:308-766 | within one daemon's life, a lease object is made only as the lease of its device |
| Terms.GrantedTerms | internal/harbor/broker.go:465-486 | a free device goes to the session of the request at once: every field of the new lease, its expiry included, and nothing else changes |
| Terms.RenewedTerms | internal/harbor/broker.go:318-333 | the holder's own acquire: every field of the renewed lease, and nothing else changes |
| Terms.QueuedTerms | internal/harbor/broker.go:308-345 | anyone else joins the end of the queue, as a waiter that remembers the request, and nothing else changes |
| Terms.AnyTerms | internal/harbor/broker.go:225-263 | every field of a lease made by acquire-any |
| Terms.QueueGrantTerms | internal/harbor/broker.go:707-741 | any other new lease goes to the first waiter of the queue that polled within 90 seconds, on its terms: unclaimed, never explicit, with its idle limit |
| Terms.FirstLifeHolds | internal/harbor/broker.go:785-794 | a lease from an acquire survives every tick up to the expiry asked for, or its idle limit, from its first moment, while its holder is silent and nobody releases it |
| Terms.QueueGrantHolds | internal/harbor/broker.go:776-794 | so does a lease from the queue, up to its grant plus the waiter's idle limit, if no tick finds it unclaimed after 20 seconds |
| Terms.ClaimTerms | internal/harbor/broker.go:508-527 | a poll or wake-up with a lease claims it, changes nothing else of it, and leaves the registry |
| Terms.UpkeepTerms | internal/harbor/broker.go:436-455 | every field of a lease after a heartbeat and after an end |
| Terms.RestoredTerms | internal/harbor/broker.go:845-864 | every field of a lease after a restart, from its record in the snapshot |
| Terms.RestoredHolds | internal/harbor/broker.go:785-794 | and such a lease survives every tick up to the saved expiry, or the saved last activity plus the idle limit |
| Terms.ReleaseEnds | internal/harbor/broker.go:581-611 | a release ends exactly the lease it names by ID, or by device if it comes from its session or forces |
| Terms.GiveUpEnds | internal/harbor/broker.go:430-432 | a waiter that gives up ends exactly the lease it was handed |
| Terms.TickEnds | internal/harbor/broker.go:775-795 | a tick ends exactly the leases unclaimed for more than 20 seconds, explicit past their expiry, or idle past their limit, and which commands protect which |
| Terms.TickKeepsTerms | internal/harbor/broker.go:780-784 | a lease that a tick keeps is changed exactly by the reset of commands that have not beaten for 60 seconds |
| Terms.EndedIsCleaned | internal/harbor/broker.go:691-703 | the device of an ended lease is cleaned up first exactly when cleanup is on and it has a baseline; if not, it is leased again exactly when somebody waiting has polled within 90 seconds |
| Terms.PassHandsOn | internal/harbor/cleanup.go:110-114 | and so it is when its pass is over |
| Registry.WaiterStep | internal/harbor/broker.go:499-527 | no critical section makes a waiter forget its request or its lease, or makes it poll; with a lease it leaves the registry only by itself or in a tick more than 90 seconds after its last poll |
| Registry.CollectedExactly | internal/harbor/broker.go:796-802 | the second part of a tick unregisters exactly the waiters with a lease that have not polled for 90 seconds, and does nothing else |
| Registry.PollRemembered | internal/harbor/broker.go:507 | a registered waiter's poll is remembered, and only that one's |
| Registry.GrantIsKept | internal/harbor/broker.go:499-513 | over any run of one daemon, a waiter with a lease stays registered if each tick comes within 90 seconds of its last poll, and its next poll finds and claims that lease |
| BrokerInvariant.NextKeeps | internal/harbor/broker.go:181-864 | every critical section, restarts and configuration reloads included, keeps the whole invariant |
| BrokerInvariant.ReachableWell | internal/harbor/broker.go:101-111 | the invariant holds after any run from an empty daemon |
| Reachable.DevicesSafe | internal/harbor/broker.go:691-766 | in every reachable state a device is never both leased and in cleanup, at most one pass works on it, no empty queue is stored, and a queue exists only at a leased or cleaning device |
| Reachable.WaitersSafe | internal/harbor/broker.go:308-433 | in every reachable state a registered waiter has no lease if and only if it stands in its own device's queue, once, with an open channel; nobody waits behind a lease of their own session |
| Reachable.SnapshotSafe | internal/harbor/broker.go:824-843 | in every reachable state the snapshot names exactly the live leases, each with its device, session, holder, start and baseline |
| DeviceMachine.Refines | internal/harbor/broker.go:308-766 | every critical section steps the small machine of each device by one operation, and leaves every other device's machine as it was |
| DeviceMachine.HandoffRefines | internal/harbor/broker.go:707-766 | the two loops over tables and pointers are one hand-off of the device's queue |
| Handoffs.BoundedOvertaking | internal/harbor/broker.go:707-761 | each hand-over of a device during any run uses up one of the distinct sessions at or ahead of a waiter that still waits, so with d of them it is gone by the d-th |
| Handoffs.StepShrinks | internal/harbor/broker.go:725-760 | nothing that happens to a device puts a session ahead of a waiter, and a hand-over takes at least one away |
| Handoffs.LeftForGood | internal/harbor/broker.go:337-343 | a waiter that has left a queue never comes back to it |
| Wakeups.HandoffServesOneSession | internal/harbor/broker.go:707-761 | a hand-off serves exactly the polling waiters of the first polling waiter's session, with one new lease, unclaimed and not explicit; wakes the stale ones empty-handed; and leaves the rest waiting in their order |
| Wakeups.HandoffToNobody | internal/harbor/broker.go:709-724 | with nobody polling, the device is free and every waiter has been woken and unregistered |
| Wakeups.NoLostWakeup | internal/harbor/broker.go:378-433 | no waiter leaves its queue with its channel open unless its own client gave up; channels stay closed; a waiter's lease is never exchanged |
| Wakeups.LeavesWithLease | internal/harbor/broker.go:710-761 | a waiter that polls and does not give up leaves its queue only with a lease |
| Wakeups.DropLeavesNothing | internal/harbor/broker.go:416-433 | a client that gave up is in no queue and not in the registry |
| Recovery.NewHolderIsNew | internal/harbor/broker.go:153-156 | whoever newly holds a device has a lease ID that was never handed out before |
| Recovery.StaleReferencesAreInert | internal/harbor/broker.go:552-579 | an expired ID never returns to the table, over any run with restarts; a late heartbeat, end, baseline or release by that ID changes nothing at all |
| Recovery.OthersUntouched | internal/harbor/broker.go:436-455 | upkeep on one lease leaves every device it does not hold as it was |
| Recovery.CrashKeepsOwners | internal/harbor/broker.go:845-864 | a crash after any run, also during cleanup passes, yields the same owners on the same devices, empty queues, and the whole invariant |
| Commands.RunningBounded | internal/harbor/broker.go:322-327 | in every run, orphan resets, restarts and stray ends included, a lease counts no more running commands than are outstanding on it |
| Commands.OutstandingIsDifference | internal/harbor/broker.go:446-455 | the outstanding commands are the commands granted less the ends reported if and only if no end came without a command outstanding |
| Commands.RunningExact | internal/harbor/broker.go:736-751 | in one daemon's life, a lease kept alive counts exactly the commands outstanding on it |
| Commands.HandoffCounts | internal/harbor/broker.go:736-751 | a lease handed over starts with as many running commands as command waiters received it |
| Commands.BusyIsSpared | internal/harbor/broker.go:785-794 | a tick leaves a claimed lease that counts a command and was beaten within the last minute exactly as it was |
| Commands.LiveHolderKept | internal/harbor/broker.go:776-794 | over any run without a release of the lease or a restart, whose every tick finds the lease claimed, beaten within the last minute and with a command outstanding, the lease is still live at the end |
| Reclaim.SilentIsReclaimed | internal/harbor/broker.go:780-794 | with ticks at most delta apart, the lease of a holder silent since t0 is gone by t0 + 60s + idle limit + 2 delta, an explicit one by the later of t0 + 60s and its expiry, plus delta; if the daemon restarts meanwhile, by the later of that and of what the record in the snapshot allows |
| Reclaim.SilentIsSpared | internal/harbor/broker.go:785-794 | and not too early: ticks up to the last activity plus the idle limit, up to the last beat plus 60s plus the idle limit while a command counts, or up to an explicit expiry, leave the lease there |
| Reclaim.UnclaimedIsSpared | internal/harbor/broker.go:776-794 | the same for a lease not claimed yet, if it is claimed within 20 seconds |
| Reclaim.SignOfLife | internal/harbor/broker.go:436-455 | a heartbeat, end, renewal or sticky acquire in any reachable state claims the lease, makes it active and beaten now, and gives it the expiry asked for, or leaves the one it had |
| Reclaim.LifeHolds | internal/harbor/broker.go:785-794 | and so, in any run in which nobody releases it and its holder shows no other sign of life, the lease survives every tick until that expiry, or until that moment plus its idle limit |
| Reclaim.UnclaimedIsReclaimed | internal/harbor/broker.go:776-779 | a lease granted from the queue is claimed or gone by its grant + 20s + delta, in any run |
| Reclaim.DeadQueueMoves | internal/harbor/broker.go:707-741 | behind d dead sessions, holder included, a waiter is off the queue within d turns of 20s + delta + lag |
| Reclaim.ServedAfterTheDead | internal/harbor/broker.go:770-795 | and if it keeps polling it has been given a lease by then |
| Reclaim.StuckIsServed | internal/harbor/broker.go:776-779 | a concrete stuck queue that meets those conditions and is served by a single tick |
| ReaperOrder.TickIsOneVisit | internal/harbor/broker.go:775-795 | a tick does to a device what one visit does, however often and whenever it comes up in the iteration |
| ReaperOrder.TickConfluent | internal/harbor/broker.go:770-803 | any two iteration orders over the leases, with or without re-yielded serials, give the same leases, queues, cleanup, passes, registry and waiters up to the numbers of new leases, and snapshots that name the same owners |
| Snapshots.SnapshotSettled | internal/harbor/broker.go:780-803 | for any reachable state, all iteration orders leave the same records in the snapshot if and only if the tick does not both end a lease and reset the commands of one it keeps |
| Snapshots.SnapshotsAgree | internal/harbor/broker.go:780-803 | two given orders do if and only if the tick ends no lease, or each such reset comes before the end of some lease in both orders or in neither |
| Snapshots.SnapshotAfter | internal/harbor/broker.go:780-803 | record by record, the snapshot after any part of a tick |
| Snapshots.SnapshotDependsOnOrder | internal/harbor/broker.go:780-803 | a concrete state and two orders whose snapshots differ in the running count and the time of the last activity |
| ReaperOrder.GrantSurvivesTick | internal/harbor/broker.go:691-741 | a lease granted inside a tick is there unchanged when the tick ends |
| OneDevice.FirstFreeIsFirst | internal/harbor/broker.go:268-295 | the pick is the first listed device that is online, allowed, of the kind asked for, unheld and not cleaning; there is none if and only if no such device exists |
| Selection.SelectAcquireAny | internal/harbor/broker.go:268-295 | the loop finds that pick, counts the online devices that the deny list excluded on the way, and lists the eligible ones it passed over, in order, each as held or in cleanup |
| OneDevice.AnyOutcome | internal/harbor/broker.go:232-263 | a session that holds a device keeps it, with a new explicit expiry, and nothing changes hands; one that holds none gets the first free match, with every field of the lease; failing that nothing happens |
| OneDevice.AnyRunsHoldOne | internal/harbor/broker.go:235-244 | in runs whose acquires are all acquire-any, no session ever holds two devices and nobody queues |
| OneDevice.NoBarging | internal/harbor/broker.go:334-336 | an acquire of either kind that puts a new lease on a device overtakes nobody: the device was free and had no queue |
| Blocking.AcquireLocalBlocking | internal/harbor/broker.go:351-376 | on the broker's objects, with anything happening between its critical sections: it acquires, waits, and acquires again exactly as the clocks, the channel and the select's choices say, and ends with the lease or given up |
| Blocking.WaitLocal | internal/harbor/broker.go:378-412 | each tick keeps the waiter fresh; a closed channel found by the select ends the wait with the waiter's lease or without; a deadline or abort drops the waiter |
| LocalAcquire.ClientStaysWell | internal/harbor/broker.go:351-412 | whatever the others do, a client that got a lease got one that can only hold its own device for its own session, and one that gave up has left nothing in registry or queues, for good |
| LocalAcquire.GrantFound | internal/harbor/broker.go:362-366 | a client with a lease got it from a critical section of its own, that granted it for its device and session |
| LocalAcquire.EndsOnce | internal/harbor/proxy.go:188-212 | a client that is done has reported exactly one end, one that gave up none, and none beats or ends any lease but its own |
| LocalAcquire.OneWaiterAtATime | internal/harbor/broker.go:351-412 | each waiter a client was ever queued as is the one it waits with now, or has left registry and queues for good |
| LocalAcquire.LiveUntilEnded | internal/harbor/broker.go:691-703 | a critical section takes a live lease away if and only if it is a release of it, a waiter giving it back, or a tick that finds it over |
| LocalAcquire.LeaseLasts | internal/harbor/broker.go:362-388 | a lease that a client has is live, unless such a critical section of somebody else has ended it since |
| ClientTerms.RequestRemembered | internal/harbor/broker.go:308-317 | the waiter of a waiting client has its device, session, holder and kind of request |
| ClientTerms.CommandCounted | internal/harbor/broker.go:736-751 | the command of a client with a lease was counted on that lease by some critical section |
| ClientTerms.GrantIsGiven | internal/harbor/broker.go:362-388 | the turn that gives a client its lease leaves a claimed one of the device and session it named: a live one with its command counted if at once, the lease of its own waiter otherwise |
| LocalAcquire.GivingUpReleases | internal/harbor/broker.go:430-432 | a lease handed over in the moment its client gives up is taken back |
| CleanupPasses.NoPassWithoutBaseline | internal/harbor/cleanup.go:67-69 | in every reachable state, a running pass works with a recorded baseline |
| CleanupPasses.BaselineIsStored | internal/harbor/cleanup.go:70-82 | a lease's baseline is empty or one of the listings stored for that very lease, over any run with restarts |
| CleanupPasses.PreexistingIsKept | internal/harbor/cleanup.go:66-82 | a package that every stored listing of a lease shows is never uninstalled by that lease's pass |
| CleanupPasses.PassSparesExactly | internal/harbor/cleanup.go:13-18 | a package is safe from a pass whatever happens on the device if and only if it is in the recorded baseline or protected; the baseline is one of the listings stored for the lease |
| CleanupPasses.PredatingAppRemoved | internal/harbor/cleanup.go:66-82 | a concrete run from an empty daemon whose pass uninstalls an app that was on the device before the session |
| CleanupPasses.PassEnds | internal/harbor/cleanup.go:84-115 | a running pass is over after a critical section if and only if it was the pass's own last one or the start of a new daemon |
| CleanupPasses.NextGrantAfterPass | internal/harbor/cleanup.go:84-115 | a device in cleanup stays so for the same lease, and leased to nobody, exactly as long as neither that lease's own pass has finished nor a new daemon has started |
| CleanupPasses.RestartForgetsPass | internal/harbor/broker.go:845-864 | a concrete run in which a restart ends a pass and leaves its device free |
| Packages.NewPackagesToRemove | internal/harbor/cleanup.go:43-56 | the current packages, in order, that are neither in the baseline nor protected |
| Packages.IsProtectedPackage | internal/harbor/cleanup.go:58-65 | true if and only if some configured prefix matches |
| Packages.Phone.RunCleanup | internal/harbor/cleanup.go:87-115 | which uninstalls a pass attempts, which it reports as removed and failed, and the device it leaves, while the device changes from outside between any two steps |
| Packages.SparedPackage | internal/harbor/cleanup.go:43-56 | a baseline or protected package is on the device after a pass exactly when it would be without the pass |
| Packages.SparedExactly | internal/harbor/cleanup.go:43-56 | for every device, listing, number of uninstalls and change from outside a pass makes no difference to a package if and only if it is in the baseline or protected |
| Packages.RestoredExactly | internal/harbor/cleanup.go:87-102 | an undisturbed pass leaves exactly current intersected with baseline or protected, if and only if every package to remove was uninstalled by some attempt |
| Packages.SecondPassIdle | internal/harbor/cleanup.go:43-56 | a second diff over a restored device is empty |
| Wire.RoundTrip | internal/harbor/proxy.go:308-330 | a written message is read back with the rest of the stream intact if and only if its length fits four digits |
| Wire.RoundTripAll | internal/harbor/proxy.go:308-330 | a sequence of messages is read back message by message |
| Wire.ReadIsWritable | internal/harbor/proxy.go:308-325 | whatever is read can be written again, and was the front of the stream |
| Wire.HeaderDigits | internal/harbor/proxy.go:327-334 | a written length is at least four lower-case hexadecimal digits |
| Wire.Conn.ReadMsg | internal/harbor/proxy.go:308-325 | reads the message at the front of the stream, or fails on a short, malformed or oversized one |
| Wire.RelayTransportStatus | internal/harbor/proxy.go:338-370 | the client gets exactly the server's answer and the server's stream is left at its end; true if and only if the transport was accepted |
| Wire.RelayLosesNothing | internal/harbor/proxy.go:338-370 | what was relayed and what is left make up the server's stream if and only if the stream does not end inside a fixed-size field |
| Wire.RelayStopsAtBoundary | internal/harbor/proxy.go:346-369 | the answer ends after OKAY, its transport id, or the whole failure message, and is an acceptance only in the first two cases |
| Readahead.ReadaheadConn.Read | internal/harbor/proxy.go:402-416 | returns the prefix and then what the connection gives for the room left, exactly that many bytes, removes exactly those, and reports the connection's fault unless the prefix filled the buffer |
| Readahead.ReadaheadConn.Run | internal/harbor/proxy.go:457-491 | the watcher appends what it keeps to the prefix and reports the client gone exactly as its rounds say |
| Readahead.AbortsExactly | internal/harbor/proxy.go:462-490 | the client is reported gone if and only if a round that is reached, and not stopped, meets a broken connection |
| Readahead.WatcherConserves | internal/harbor/proxy.go:462-490 | what the watcher keeps and leaves is the client's stream if and only if no round it reaches while watching has a read that fails and yet brings bytes |
| Readahead.TimeoutWithByte | internal/harbor/proxy.go:476-484 | a concrete round that loses a byte of a client that stays |
| Readahead.QueueThenCopy | internal/harbor/proxy.go:438-455 | for any split between watcher reads and later reads of any sizes, what comes out is the client's stream, in order, nothing lost or duplicated, if and only if there is no such round; how many bytes come out; and all of them once reads that do not fail have room and bytes for them |
| Readahead.CopiedEnough | internal/harbor/proxy.go:374-382 | reads that do not fail bring everything there is, as soon as together they have room and bytes for it |
| Requests.TransportOfSerial | internal/harbor/proxy.go:260-265 | both transport forms give back any serial whole |
| Requests.SerialOfTransport | internal/harbor/proxy.go:260-272 | a transport with a serial came from one of the two forms that name one |
| Requests.TransportExactly | internal/harbor/proxy.go:260-272 | exactly the two forms with a serial and the six without are transports; the family whose answer carries an id is the one that begins with host:tport: |
| Requests.ExemptExactly | internal/harbor/proxy.go:283-304 | a service is exempt if and only if it is of shell or exec form with a non-empty command that starts with a listed prefix |
| Requests.TrimIsCore | internal/harbor/proxy.go:283-304 | trimming takes off exactly the blanks at both ends |
| Proxy.ProxyConn | internal/harbor/proxy.go:103-214 | for any client stream, server, network, schedule and broker, up to the raw copying: without a device service the broker is untouched; with one, what goes upstream and what happens at the broker is the record of that service; the client gets the answer to its transport, and a FAIL exactly when refused or when there is no server |
| Proxy.ServeDevice | internal/harbor/proxy.go:158-212 | a service that needs no lease makes no critical section of its own; one that does is a client of the broker that acquires as scheduled, beats once in each period of copying, ends once, and sends nothing upstream while it has no lease |
| Proxy.ServiceIsGated | internal/harbor/proxy.go:158-212 | whatever a service that needs a lease sends upstream comes after a turn of this connection that gave it a lease of that very device, for its session and holder, with its command counted, and before its end; the lease is live at that moment unless somebody else's critical section ended it |
| Proxy.ServiceIsBalanced | internal/harbor/proxy.go:158-212 | a served connection has sent its service and reports exactly one end, on the lease it was given; a refused one reports none and has sent nothing upstream; it acquires nothing but its device, for its session and holder; none of the waiters it ever had is left in registry or queues |
| Proxy.ServiceIsFree | internal/harbor/proxy.go:158-178 | every other service (device unknown, listed as exempt, or of an observer) is sent at once, with no critical section of its own |
| Proxy.AskedDevice | internal/harbor/proxy.go:103-157 | a client that asks for a transport to a serial and then for a service gets that service on that device, or the only one online for an empty serial, exactly when the server is there and says OKAY |
| Proxy.AskedAny | internal/harbor/proxy.go:103-157 | one that names no device gets the only one online; one that asks for no transport is relayed only |
| Sessions.ClassifyPID | internal/harbor/session.go:38-73 | both bounded walks end on any process table, cyclic ones included, with the key of the anchor defined by the two walks |
| Sessions.AnchoredAtNearest | internal/harbor/session.go:34-52 | the anchor is the nearest observer or agent within 25 processes, whenever there is one; observers are those matching the observer list |
| Sessions.FallbackAnchor | internal/harbor/session.go:53-72 | otherwise the nearest durable ancestor within 25 processes, otherwise the process itself |
| Sessions.SameAgentSameSession | internal/harbor/session.go:12-20 | processes whose walks meet the same nearest observer or agent have the same key |
| Sessions.DifferentAgentsDifferentSessions | internal/harbor/session.go:12-20 | processes whose walks meet different ones never have the same key |
| Sessions.EqualKeysEqualAnchors | internal/harbor/session.go:45-72 | over any process tables, equal keys name the same anchor process |
| Sessions.ChildInSession | internal/harbor/session.go:12-20 | a command started by an agent, directly or through shells, has the agent's key |
| Sessions.KeyReads | internal/harbor/session.go:45-72 | a key is the name, a dash and the pid in decimal without leading zeros |
| Sessions.MatchesExactly | internal/harbor/session.go:137-149 | a name matches a list exactly when it is on it, or contains one of its names of at least five characters |

## Findings

Promises of the source that hold only under a condition, each with the condition and an input that fails.

- No app that predates a session is removed (internal/harbor/cleanup.go:13-18). The pass compares with the listing taken when the
  session began, and that listing comes too late for an app which the session uninstalls first and installs again:
  `CleanupPasses.PredatingAppRemoved` is such a run. What is safe from a pass in every situation is exactly what the recorded listing
  shows or a prefix protects: `CleanupPasses.PassSparesExactly`.
- A device is handed on only after its cleanup (internal/harbor/cleanup.go:84-115). A daemon that restarts forgets its passes, and with
  them what they had not yet removed: `CleanupPasses.RestartForgetsPass`. The device stays in cleanup exactly as long as neither its
  pass finishes nor a new daemon starts: `CleanupPasses.NextGrantAfterPass`.
- No byte of a queued client is lost (internal/harbor/proxy.go:438-490). The watcher drops the bytes of a read that also fails, which the
  contract of Go's io.Reader allows a connection to return (a plain TCP connection does not): `Readahead.TimeoutWithByte`.
  `Readahead.WatcherConserves` holds if and only if no round it reaches has such a read.
- A tick is independent of map order (internal/harbor/broker.go:770-803). The tables are, up to the numbers of new leases. The snapshot is
  not: an orphan reset is not saved by itself, only by the next lease that ends in the same tick, so running counts and times of last
  activity can differ, and with the latter the time of reclaim after a restart: `Snapshots.SnapshotDependsOnOrder`. All orders leave
  the same snapshot exactly when the tick does not both end a lease and reset one that it keeps: `Snapshots.SnapshotSettled`.

## Left out

- Broker: queues are sequences between critical sections; within one, the stale filter and the removal copy the queue into an array and edit that in place. That two queues never share an array is not modelled. Map iteration is an arbitrary order; a tick's loop here meets each serial of the table once, and that meeting one again changes nothing is `ReaperOrder.TickIsOneVisit`.
- ClientStaysWell: covers one daemon's life, since the blocking acquire does not survive its daemon; that it returns in time is not claimed, because its deadline and abort are just events.
- SilentIsReclaimed: needs ticks at most delta apart across a restart as well; how long a new daemon takes to start is part of delta.
- PreexistingIsKept: speaks of packages that every stored listing shows, which is less than the source's comment promises; see Findings.
- ProxyConn: its client output ends where raw copying begins; the server's answer to a plain host request is copied raw.
- ServiceIsGated: gates the start of a service and the start of its raw copying, not the copying's whole lifetime, because losing a lease does not cut a running splice; exempt services, observers, unresolved serials and forced release pass by design.
- QueueThenCopy: says what comes out, not how soon; a read with buffered bytes may still block on the connection, as in the source.
- LeaseRec: a queued explicit acquire loses its expiry and process id when it is served, because waiters do not carry them; the model does the same.
- Poll: a granted reply may name a lease that was reclaimed since; only liveness when the lease is handed over is proved (`Wakeups.HandoffServesOneSession`, `LocalAcquire.GrantedNow`).
- DropWaiter: giving up takes back a lease shared with other waiters of the same session, as in the source.
- AcquireAny: the sticky branch ignores the deny list and the constraints, as in the source.
- Parse: four strict hexadecimal digits; the leniency of Go's Sscanf (signs, spaces, trailing junk) is not modelled.
- TrimSpace: trims ASCII blanks only; strings are sequences of characters without an encoding.
- Conn: a write either goes out whole or fails; partial writes, deadlines and half-closing are not modelled; raw copying, of a service or of the answer to a plain host request, is not part of the bytes a connection is shown to write, beyond that it starts.
- World: the session of a connection, the only online device, adb's answers and the words of a refusal are parameters of a proxy connection; the exchange of client bytes during the acquire is `Readahead`'s, not repeated in `Proxy`.
- Reloaded: the configuration may change between any two critical sections but not inside one, although the source re-reads it there.
- Restart: saving is an atomic replace that succeeds, reading it back succeeds, and process ids are not reused across daemons with one state file.
- Integers are unbounded; the source's 64-bit counter and durations are assumed not to overflow, and IdleTTL is not negative.
- HTTP and JSON handling, the unix socket, locking of the daemon, signals, history, logging and status reports are not part of this model.
- Subprocess calls (adb, ps, lsof) are inputs; the parsing of their output, environment overrides of session keys and configuration parsing are not part of this model.
- The shim, its fail-open behaviour, invocation parsing, tunnels, run submission, observation and installation are not modelled.
