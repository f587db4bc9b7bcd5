# Verified model of iouring-go

This project models the user-space half of io_uring as iouring-go implements it: the completion ring with its
out-of-order acknowledgements, the dispatch loop for blocking operations, the submission ring, the file handles on
top, and the copy loop that uses two of them. It proves what holds in every interleaving of goroutines and kernel,
and, where the code does not keep a promise, exactly when it does.

`dafny verify dfyconfig.toml` checks everything.

## How it is organised

| file | subject |
|---|---|
| `Words.dfy` | uint32 counters, `counter & mask`, slots |
| `Window.dfy` | the completion ring as a picture of the history of posts |
| `Scan.dfy` | one pass of the two-segment search of `getCqe` |
| `Completer.dfy` | `completer.run` as a class, and its acks in any order of arrival |
| `FileProtocol.dfy`, `FileInvariant.dfy`, `FileSafety.dfy` | kernel, concurrent `getCqe` calls and completer as a transition system; what holds in every run |
| `FileTurns.dfy`, `FileLiveness.dfy`, `FileStuck.dfy` | whole turns of that system; exactly when some call, and when a given call, can still return |
| `FileWedge.dfy`, `LapWedge.dfy` | two short runs that leave a ring on which no call can return |
| `Claims.dfy`, `ClaimLedger.dfy` | `SubmitEntry`, its callback and `Enter` interleaved at every atomic operation; what becomes of every claim, and that each operation left alone finishes |
| `Naming.dfy` | the counters of the submission ring and `Array`: how many entries one `Enter` takes, and which |
| `Submission.dfy` | the submission ring as one goroutine drives it |
| `Dispatch.dfy`, `DispatchTheory.dfy` | `onEntry` as a class, and what one call delivers and how far it moves the head |
| `DispatchProtocol.dfy`, `DispatchSafety.dfy` | blocking callers, `Ring.run` and kernel as a transition system; what holds in every run |
| `DispatchHead.dfy`, `DispatchPass.dfy` | where the head of that system can be, and what a scan has dealt with when it stores it, in every run |
| `DispatchSerial.dfy`, `DispatchAnswer.dfy` | its runs with one call at a time; exactly when such a call is answered |
| `DispatchReal.dfy`, `DispatchTurns.dfy` | its runs on a given submission ring; whole turns of it |
| `SelfBlock.dfy` | exactly how many callers it takes for `Ring.run` to block itself |
| `DispatchKept.dfy`, `DispatchLoss.dfy` | exactly how many callers it takes for a completion to be lost |
| `Blocking.dfy` | the whole chain of one blocking operation |
| `FileRing.dfy`, `FileIO.dfy` | file I/O through a ring, failures included; cursor, `Read`, `Write`, `ReadAt`, `WriteAt`, `Seek`; the copy loop |
| `EntryBy.dfy` | `CompletionQueue.EntryBy` |
| `Batching.dfy` | the deadline submitter |

Positions in a ring are unbounded naturals; the uint32 words of the code stand beside them, and `Words.WordSlot` shows
that masking the word gives the slot of the position, past any number of laps and wraps. Fields and parameters marked as
history in the transition systems are not read by any step to decide what the code does.

## Assumptions about the kernel and the callers

- The kernel posts a completion, entry and tail together, only while `tail - head` (mod 2^32) is less than the ring size.
- The kernel takes at most `toSubmit` and at most `tail - head` (mod 2^32) submissions, each through `Array[head & mask]`;
  it may take fewer, and none if the call fails.
- A completion carries the UserData of an entry that was taken. The transition systems do not assume that an entry is taken
  once, since the code does not see to that: the same id may be posted again, and id 0, of an entry not filled in yet,
  may be posted too. Where a statement needs ids not to be posted twice, `UniqueIds` stands in it. Runs that show a promise
  broken are in mode `Real`: each `Enter` in them takes what the counters and `Array` of a submission ring, of any size,
  then yield. Promises kept are proved without that restriction.
- Ring sizes are powers of two from 2 to 2^31. Request ids do not wrap to zero. Fewer than 2^32 goroutines submit at once.
- A ring's completion head is moved either by the completer (file handles) or by `onEntry` (blocking operations), not by both.
- While a sequential search in `FileRing.dfy` keeps missing and acks are queued, the completer handles at least one of them
  between two passes.
- A read of the kernel returns no bytes only at the end of the file or for an empty buffer; a write of a non-empty buffer
  writes something or fails.

## What the code does not keep

Each of these is stated with the exact condition and, where it is about one input, with that input.

- A call whose completion has been posted does not always return. In every reachable state it can return, in some
  continuation, if and only if it is not stuck (`FileStuck.CallExactly`). It is stuck if the scan it is in ends without a
  match, the ring is full, the completion at the head is not its own, and the head cannot move: its ack has been sent, but
  the completer rests with an empty channel and no call is about to send another ack; or its ack has not been sent, and the
  call it belongs to will not send it. No call at all can return if and only if the ring is dead
  (`FileLiveness.DeadExactly`). Two ways there:
  - A failed read or write is returned without an ack, so the head never passes it (`FileSafety.FailurePinsHead`,
    `FileWedge.FailureWedges`). For one goroutine on its own, requests are served up to `n - 2` after the first failure and
    the next one never returns (`FileRing.IoRing.PerformAll`).
  - A completion posted after a lap boundary can be acknowledged before the one in front of it. The head then rests on the
    boundary although that completion has been returned (`Completer.HeadCatchesUp`), and if the ring fills up in that state
    it is dead without a single error (`LapWedge.LapBoundaryWedges`).
- `Ring.run` blocks on its own retry channel of capacity two. No run with at most `c` calls under way does so if and only if
  `c <= 1`, whatever the sizes of the two rings (`SelfBlock.BlocksExactly`).
- `onEntry` resets `seen` at the wrap and can move the head past a completion nobody has taken (`DispatchTheory.HeadMovement`),
  which the kernel then overwrites. Every completion still waited for stays in its slot, in every run with at most `c` calls
  under way, if and only if `c <= 2` or the ring has two slots, whatever the size of the submission ring
  (`DispatchLoss.IntactExactly`).
- The retry path enters the kernel only when another request arrives. A lone call that has been received is answered in some
  continuation if and only if its entry has been taken or the `Enter` is still to come (`DispatchAnswer.AnswerableExactly`).
- The value the submission callback stores into `Array` names its own slot only if everything claimed earlier fills whole laps
  (`Naming.CallbackNamesClaim`, in every interleaving `Claims.StoresCapturedHead`); a batch of two on a new ring submits the
  first entry twice (`Submission.BatchOfTwo`).
- `Ring.run` asks `Enter` for as many entries as it has requests in flight. `Enter` takes exactly the entries claimed next,
  each once and in order, if and only if it stays below the last claim and every claim it comes to captured a head whole laps
  from its own position. It stays below the last claim if and only if it is asked for no more than is outstanding, or the laps
  dropped from the tail word are, mod 2^32, no more than that (`Naming.EnterTakesClaimed`). Otherwise it can take an entry of
  an earlier lap again (`Submission.StaleRetake`).
- `EntryBy` stores a slot number as head, which is the moved head only in the first lap (`EntryBy.HeadKeepsLap`).
- `ReadAt` and `WriteAt` move the cursor. `Seek` returns 0 and subtracts from the end, against the documentation of
  `io.Seeker`; the code is followed.
- The copy loop ignores what `Write` returns, so when it finishes the copy is right exactly when every write it submitted was
  completed with the length asked for. It
  stops with an error exactly when one of its own requests failed, and never ends exactly when one of them fills the ring
  behind an earlier failure (`FileIO.Copy`).
- After one failed `Enter` the deadline submitter never flushes again (`Batching.Submitter.ServeStalled`).

## Model

| member | source | states |
|---|---|---|
| `Words.WordSlot` | completer.go:42-47 | masking a counter that has wrapped at 2^32 gives the logical position modulo the ring size, because the size divides 2^32 |
| `Scan.Pass` | read_writer.go:44-81 | the two loops, with their restart and the second load of the tail, settle on the slot the specification of a pass gives |
| `Scan.PassFirst` | read_writer.go:48-81 | a pass settles on the first slot carrying the id, in the order of the two loops |
| `Scan.PassExactly` | read_writer.go:44-83 | for a tail that moves between its two loads, ids posted any number of times: a pass settles on a slot if and only if a position it looks at carries the id, or the slot of an unmoved tail still does from a lap ago. It looks at everything posted before the second load if the first tail lies in the next lap, up to the first tail if not, and at the head only if the window was full |
| `Scan.PassSettles` | read_writer.go:44-83 | the same with ids posted once: it settles on the slot of a posted CQE if and only if it looks at that position |
| `Scan.PassFinds` | read_writer.go:44-83 | the circular scan against linear search, for ids posted once and an unmoved tail: a posted id of the window is found, in its own slot, if and only if the window is not full or it is the one at the head |
| `Scan.PassFindsId` | read_writer.go:44-83 | even when an id has been posted more than once, a pass for the id of a CQE in the window starts over if and only if the window is full and its head carries another id |
| `Scan.PassMisses` | ring.go:229-263 | on a non-full window an id not in the window is found only if the one extra slot, at `tail & mask`, still holds it |
| `Completer.RunIsLongest` | completer.go:45-55 | the inner loop takes the longest run of consecutive slots from the head slot, deletes exactly that run, and terminates |
| `Completer.AckTracker.Handle` | completer.go:37-56 | one turn of the completer's loop moves the head word and the map as the specification of one ack says, through 2^32 |
| `Completer.ArrivalOrder` | completer.go:37-56 | for acks of a window in any order: the head is at the first missing position, capped at the lap boundary when the last ack lies before it, and the map is exactly the arrived slots past it |
| `Completer.HeadCatchesUp` | completer.go:47-56 | once all acks have arrived the head is at the tail if and only if the window ends by the lap boundary or the last ack was for the new lap |
| `Completer.OrderIndependence` | completer.go:37-56 | within a lap any two arrival orders of the same acks end in the same head and map |
| `Completer.OrderMatters` | completer.go:49-54 | across a lap boundary two orders end one apart, on every ring size |
| `FileInvariant.MatchIsOwn` | read_writer.go:50-59 | whatever stale snapshot led the scan there, an entry with the caller's id is a CQE posted with that id and not yet acknowledged |
| `FileInvariant.NeverSeenTwice` | completer.go:38-41 | a slot never arrives at the completer while it is already in the map |
| `FileInvariant.StepInv` | completer.go:31-58 | every step of kernel, readers and completer keeps the representation invariant, with completions repeated and ids unfilled |
| `FileSafety.UnreadIsIntact` | read_writer.go:42-83 | in every interleaving no CQE is overwritten before its ack is processed: it is at or past the head and intact in slot `p mod n` |
| `FileSafety.OwnResult` | read_writer.go:50-59 | in every interleaving a call that has returned did so with the result of a completion carrying its own id: the only one, when ids are not posted twice |
| `FileSafety.FailurePinsHead` | read_writer.go:53-55 | in every interleaving the head never passes a failed completion and at most one more lap is ever posted |
| `FileSafety.CompleterAtRest` | completer.go:32-56 | between acks the map is exactly the slots of the processed acks at or past the head, head movement plus map size counts the acks received, and the head is at the first unacknowledged position or a multiple of the ring size |
| `FileSafety.InnerLoopBound` | completer.go:48-55 | in every interleaving the inner loop takes at most `n - (head & mask)` turns |
| `FileSafety.PassSucceeds` | read_writer.go:44-83 | a call on its own, with a CQE posted for it, goes back to findCqe after one pass if and only if the window is full and its head carries another id; otherwise it returns its CQE |
| `FileSafety.StuckExactlyWhenFull` | read_writer.go:44-83 | some awaited CQE can be returned by a pass if and only if it is not the case that the ring is full and nobody awaits its head |
| `FileTurns.ReturnAlone` | read_writer.go:42-83 | a call left alone returns its CQE and leaves its slot in the completer's channel |
| `FileTurns.Turn` | completer.go:37-56 | the interleaved small steps of the completer add up to the specification of one ack |
| `FileTurns.LagResumes` | completer.go:42-56 | a head whose own ack has been processed is moved by the next ack, whichever it is |
| `FileTurns.ChannelHolds` | ring.go:72 | the completer's channel is never longer than 512, gets that long on larger rings, and a call that has matched can send its ack exactly when it is shorter |
| `FileLiveness.DeadForever` | read_writer.go:61-63 | from a dead ring no continuation returns another call or posts another completion |
| `FileLiveness.NotDeadProgresses` | read_writer.go:42-83 | from a ring that is not dead, with a CQE awaited, some continuation returns a call: a scan under way that will match, the next scan of the awaited CQE, or one after the completer has moved the head |
| `FileLiveness.DeadExactly` | read_writer.go:32-84 | in every reachable state with an awaited CQE: no continuation returns any call if and only if the ring is full, nobody awaits its head, the head's ack was never sent or the completer rests with an empty channel, and every call under way would start over |
| `FileLiveness.DeadHeadForm` | read_writer.go:53-59 | with ids posted once: nobody awaits the head if and only if it has been returned, and then its ack was never sent if and only if it is a failure |
| `FileStuck.StuckForever` | read_writer.go:42-83 | a stuck call stays stuck in every continuation, whatever else submits, returns or is acknowledged |
| `FileStuck.CallExactly` | read_writer.go:32-84 | in every reachable state a given call whose completion has been posted can return, in some continuation, if and only if it is not stuck: it will not match where it scans, the ring is full, the head is not its own, and the head cannot move |
| `FileWedge.FailureWedges` | read_writer.go:53-55 | a concrete run: one failed request, then a dead ring with a call that never returns |
| `LapWedge.LapBoundaryWedges` | completer.go:47-56 | a concrete run without errors that ends in a dead ring with a call that never returns |
| `Claims.ClaimsCycle` | ring.go:377-403 | under any interleaving, stale loads included, the k-th successful swap claims slot `k mod n` and leaves the tail at `(k mod n) + 1`; any n consecutive claims are distinct |
| `Claims.WritersShare` | ring.go:389-396 | two goroutines filling entries share one if and only if their claims are whole laps apart |
| `Claims.CountersAgree` | types.go:140-169 | in every interleaving `writes` counts the claimed, counted, uncommitted entries, completeWrite never panics, and at most one goroutine is between enterLock and enterUnlock |
| `Claims.StoresCapturedHead` | ring.go:396-399 | in every interleaving the commit of the k-th claim stores, at slot `k mod n` of Array and nowhere else, the masked head loaded before the claim, which names the claimed entry if and only if the two positions are whole laps apart |
| `ClaimLedger.ClaimAccounted` | ring.go:386-399 | in every interleaving each claim has been committed, or given up, or is held by exactly one goroutine |
| `ClaimLedger.GivenUpExactly` | ring.go:390-393 | in every interleaving a claim is given up if and only if some goroutine is between enterLock and enterUnlock when its claimer looks at `entered`; otherwise it is kept |
| `ClaimLedger.SubmitEntryAlone` | ring.go:377-400 | from every reached state with nobody in Enter, SubmitEntry left alone returns after five operations with entry `k mod n` for the k-th claim, one more claim and one more writer, and nothing else changed |
| `ClaimLedger.CallbackAlone` | ring.go:396-399 | the callback left alone uncounts the writer and stores the masked captured head at the claimed slot, and nothing else |
| `ClaimLedger.EnterAlone` | types.go:140-155 | enterLock left alone gets in if and only if nobody is in, whether or not there are writers, and is back at its start otherwise; enterUnlock releases |
| `ClaimLedger.FinishesAlone` | types.go:140-169 | in every reached state, wherever it stands and however stale what it has loaded: a goroutine in SubmitEntry or enterLock with nobody in Enter, or in the callback, finishes in at most nine operations of its own |
| `Naming.CallbackNamesClaim` | ring.go:396-399 | the stored value names the claimed slot if and only if the masked tail and head agree at the claim, that is if claimed minus taken is whole laps |
| `Naming.SomethingAvailable` | ring.go:378-385 | with one entry claimed and the rest taken, `tail - head` mod 2^32 is never zero |
| `Submission.SubmitQueue.SubmitEntry` | ring.go:373-404 | claims the next slot in the cycle, resets only that entry, counts the writer; the branch that restarts the tail is unreachable |
| `Submission.SubmitQueue.Commit` | ring.go:396-399 | uncounts the writer and stores the masked head captured at the claim at the claimed index only |
| `Submission.SubmitQueue.Enter` | ring.go:109-122 | the assumed kernel step: takes entries through Array at its own head, at most as many as asked, as shown by the counters, and as it is willing |
| `Submission.SubmitQueue.SubmitOne` | read_writer.go:87-96 | one round in which the kernel takes something submits exactly the entry written, with `Array[slot] == slot` |
| `Submission.SubmitQueue.SubmitAll` | ring.go:377-399 | any number of rounds submits exactly the entries written, once each, in order, past laps and the wrap of the head |
| `Submission.BatchOfTwo` | ring.go:396-399 | on a new ring of any size a batch of two submits the first entry twice and the second never |
| `Submission.SubmitQueue.Put` | ring.go:373-404 | claim, fill and commit: Array and Entries stay what the history of claims, heads captured and entries filled in makes of them |
| `Submission.SubmitQueue.Take` | ring.go:109-122 | which entries Enter hands to the kernel, as a function of the heads captured at the claims |
| `Submission.TakenIsYield` | ring.go:109-122 | what Enter takes in a run of mode Real is what SubmitQueue.Take hands to the kernel |
| `Naming.EnterTakesClaimed` | ring.go:135 | Enter takes exactly the entries claimed next, each once and in order, if and only if it is asked for no more than is outstanding, or the laps dropped from the tail word are, mod 2^32, no more than that, and every claim it comes to is not overwritten and captured a head whole laps from its own position |
| `Naming.EnterPastFirstLap` | ring.go:150 | when the outstanding claims, less than a lap, captured such heads: on the first lap Enter always takes exactly the next ones, and later if and only if it is not asked for more |
| `Submission.StaleRetake` | ring.go:135 | one lap submitted and one more entry, with an Enter for two: the kernel takes the new entry and the second one of the first lap again |
| `Dispatch.Dispatcher.OnEntry` | ring.go:181-222 | the two loops deliver, delete and move the head as the sweep of the two stretches specifies |
| `DispatchTheory.EntryOut` | ring.go:188-220 | every delivery carries the result and flags of an entry with its id, no id gets two, and exactly the ids taken off the map get one |
| `DispatchTheory.EntryDelivers` | ring.go:188-220 | a waiting id with a CQE in the window is delivered by the call if and only if the window is not full or the CQE at its head carries that id, with ids posted more than once |
| `DispatchTheory.HeadMovement` | ring.go:186-221 | the head never passes the tail, and advances by exactly the longest waiting prefix if and only if the window ends by the boundary, or all before it is waiting, or the CQE at the boundary is not |
| `DispatchTheory.GapPinsHead` | ring.go:190-200 | a CQE at the head that nobody waits for keeps the head in place if and only if the wrap does not carry it over |
| `DispatchTheory.SkippedCompletion` | ring.go:206-221 | on every ring of more than two slots one call moves the head past an undelivered completion |
| `DispatchProtocol.StepInv` | ring.go:125-222 | every step of callers, Ring.run and kernel keeps the invariant on ids, requests, answers and tokens, with entries taken and completed more than once |
| `DispatchSafety.OwnAnswer` | ring.go:168-179 | in every interleaving a call is answered with the result and flags of a CQE that carries its id: the only one, when ids are not posted twice |
| `DispatchSafety.AnsweredOnce` | ring.go:190-198 | no step changes an answer once given |
| `DispatchSafety.NothingForgotten` | ring.go:125-166 | in every interleaving the map is exactly the requests received and not answered, at the select a non-empty map has a token pending, and neither channel exceeds its capacity |
| `DispatchSafety.ReceivedInOrder` | ring.go:132-133 | in every interleaving the requests received are exactly a prefix of those sent, in order, and the channel holds the rest |
| `DispatchTurns.RequestsQueue` | ring.go:71 | the channel of requests takes as many as the ring has slots without one being received |
| `DispatchSafety.ScanIsEntry` | ring.go:181-222 | the small steps of an undisturbed scan leave the same requests waiting, tell the same callers the same results and move the head as far as the onEntry method |
| `DispatchSafety.BlockedForever` | ring.go:143-145 | once Ring.run waits on its own full channel, no waiting call is ever answered in any continuation |
| `DispatchHead.StepHead` | ring.go:181-222 | every step keeps: the scan stays between head and tail, and a head with an unanswered completion behind it has an answered one in front of it |
| `DispatchHead.HeadBelowTail` | ring.go:204-221 | in every interleaving, with any number of callers, the head never passes the tail, the tail is never more than a lap ahead, and every CQE at or past the head is intact |
| `DispatchPass.ScanDelivers` | ring.go:181-222 | in every interleaving, when onEntry stores the head, no request still in flight has a CQE between the old head and the tail it loaded, if that window was not full; if it was full, exactly the CQE at the head has been offered |
| `DispatchSerial.SerialNeverBlocks` | ring.go:142-163 | one call at a time: tokens equal the requests in flight, at most one, and the push never blocks |
| `DispatchSerial.SerialHeadMeetsTail` | ring.go:125-222 | one call at a time, in every interleaving, posts in the middle of a scan included: the k-th completion is that of the k-th call, each call gets its result, and at the select with nothing in flight head equals tail |
| `DispatchAnswer.LeftBehindForever` | ring.go:146-158 | a lone received request whose entry the Enter did not take is unanswered in every continuation |
| `DispatchAnswer.AnswerableExactly` | ring.go:125-166 | a lone received request is answered in some continuation if and only if its entry has been taken or Ring.run is about to enter the kernel |
| `DispatchAnswer.LeftBehindHappens` | ring.go:133-141 | on every ring such an unanswerable request is reached: the first one, when its Enter fails |
| `DispatchReal.SerialIsReal` | ring.go:125-166 | with one call at a time the runs on a submission ring of any size are exactly those in which each Enter takes the entry just committed or nothing |
| `SelfBlock.TwoCallersBlock` | ring.go:127-145 | with rings of any sizes, a run on the real submission ring with at most two calls under way that ends with Ring.run blocked and a call unanswered |
| `SelfBlock.BlocksExactly` | ring.go:127-163 | with rings of any sizes, no run with at most c calls under way blocks Ring.run if and only if c is at most one, on the real submission ring and also if Enter takes anything |
| `DispatchKept.NothingLost` | ring.go:181-222 | with at most two calls under way, or on two slots, every completion still waited for is in its slot, in every run |
| `DispatchLoss.OneIsLost` | ring.go:206-221 | on every larger ring, with a submission ring of any size that yields what each Enter takes, a run with at most three calls under way in which a completion is overwritten while its call is waiting |
| `DispatchLoss.IntactExactly` | ring.go:181-222 | every completion still waited for stays in its slot, in every run with at most c calls under way, if and only if c is at most two or the ring has two slots, on the real submission ring of any size and also if Enter takes anything |
| `Blocking.Ring.PrepareNop` | ops.go:183-195 | a fresh id and a nop entry under it, named by Array |
| `Blocking.Ring.Nop` | ops.go:197-207 | the whole chain is one atomic request and answer, whatever number of scans the kernel takes to complete it, and leaves the ring quiet with head equal to tail |
| `Blocking.Ring.NopMany` | ring.go:125-222 | the k-th of any number of calls gets the kernel's answer to the k-th entry |
| `FileRing.IoRing.RunCompleter` | completer.go:31-58 | any number of queued acks, with failures among the completions: the head moves one by one up to the first failure and stays there, the later acks are stored |
| `FileRing.IoRing.GetCqe` | read_writer.go:32-84 | for any lag of the completer and after any failures: the search ends with the caller's own result, acknowledged unless it is a failure, except exactly when that completion has filled the ring behind a failure |
| `FileRing.IoRing.Perform` | read_writer.go:87-96 | the kernel takes exactly the entry asked for; one request has its effect on file and buffer and returns its result, and leaves the ring ready for the next, except exactly when it fills the ring behind a failure: then it never returns |
| `FileRing.IoRing.PerformAll` | read_writer.go:50-63 | over any requests: the kernel takes exactly the requests, in order; all are served if none fails; otherwise exactly those up to position f + n - 2, where f is the first failure, and the next never returns |
| `FileRing.SpliceBytes` | read_writer.go:87-96 | the assumed effect of a write, byte by byte; reading back where one has written gives what was written |
| `FileIO.CursorIsSum` | read_writer.go:57-59 | the cursor is the last absolute seek plus all results and relative seeks since |
| `FileIO.TransfersTile` | read_writer.go:100-115 | consecutive reads or writes at the cursor start where the one before ended |
| `FileIO.RingFile.Read` | read_writer.go:137-152 | asks for the whole buffer at the cursor and moves the cursor by the result; the error is exactly that of the completion posted for the call: the positive errno for a negative result, the end of the file for zero; after a failure nothing has changed and the next call is served; it hangs exactly when its completion fills the ring behind an earlier failure |
| `FileIO.RingFile.Write` | read_writer.go:87-96 | writes a prefix of the buffer at the cursor and moves it by the result; error and hanging as for Read, and no other file changes |
| `FileIO.RingFile.ReadAt` | read_writer.go:177-202 | reads at the given offset, and moves the cursor if and only if it returns data; error and hanging as for Read |
| `FileIO.RingFile.WriteAt` | read_writer.go:155-174 | writes at the given offset, and moves the cursor by the result; error and hanging as for Read |
| `FileIO.RingFile.Seek` | read_writer.go:218-236 | the new cursor and the error for each origin, a failing Stat included; it is where io.Seeker says if and only if the origin is not the end or the offset is zero |
| `FileIO.Copy` | examples/cp/iouring.go:54-69 | terminates for any buffer size and any short reads; it never ends if and only if one of its completions fills the ring behind a failure, and not on a ring without an earlier one; otherwise it is fatal if and only if one of its own completions is a failure; if it finishes, the source has been read to its end and the copy equals it if and only if every write it submitted was completed with the length asked for |
| `EntryBy.CompletionQueue.Find` | types.go:204-267 | which entry is found, with the tail loaded again for the second loop; that only the found entry changes, keeping id and result and getting the seen bit and no other; and that the head stored is the start of the stretch plus the run of seen-or-zero entries up to the found one |
| `EntryBy.LaterFindCounts` | types.go:218-238 | a later find behind a found entry, in the same stretch, stores a head past it if and only if everything before it had been seen, and then goes on over what was seen behind it |
| `EntryBy.BlankRun` | types.go:221 | entries nothing has been posted to count as seen |
| `EntryBy.UnseenStops` | types.go:223-229 | the run stops at an entry posted and not marked |
| `EntryBy.HeadKeepsLap` | types.go:216-237 | the stored head is the old head moved over that run if and only if the old head is in its first lap |
| `Batching.Submitter.Fire` | submitter.go:44-55 | a flush succeeds if and only if some number of successful Enter calls accepts at least what was counted; it then makes the least such number, and clears the count; otherwise it stops at the first failing one, with the count kept, the timer off and the flag on |
| `Batching.Submitter.Serve` | submitter.go:41-70 | over any events: the event of the first failing flush, exactly; up to there every firing with something counted is a flush of all of it, and the count is the work since the last firing; every work token belongs to exactly one flush or to the count |
| `Batching.Submitter.ServeStalled` | submitter.go:45-48 | after a failed flush nothing is flushed again, whatever arrives |

## Left out

- Raw system calls, memory mapping, `Setup`, `MmapRing`, closing: only the ring size, the mask and the kernel step remain.
- Sockets (`conn.go`, `ring_conn.go`) and the file registry (`register.go`): they do not rest on unique request ids, or are system-call wrappers.
- The other `Prepare` functions of `ops.go`: field assignments around `SubmitEntry`, as in `PrepareNop`.
- In `FileProtocol.dfy` taking an id, filling an entry and entering the kernel are one step: the submission side is the subject of `Claims.dfy` and `Submission.dfy`.
- In `DispatchProtocol.dfy` taking an id, claiming an entry, filling and committing it are one step, so in mode `Real` ids follow the order of the claims; other orders are among the runs of mode `AtMost`.
- Go memory effects below one atomic operation, one channel operation or one entry copy; garbage collection and `KeepAlive`.
- Signalling a caller and deleting its request are one step in `DispatchProtocol.dfy`; the code deletes by `cr.id` after signalling, when the pooled request may already be in use again.
- A failing `Enter` in `getCqe` (read_writer.go:36-38): in `FileRing.dfy` the kernel always takes the entry, because an entry left behind in the submission ring is the subject of `Naming.dfy` and `Submission.dfy`.
- Exclusion of writers by `enterLock`: the code does not provide it, since the swap succeeds while writers are outstanding.
- `Close` of a file handle, configuration options, eventfd, `NeedWakeup` and the other accessors: they would only add easy members.
- The capacity of 512 of the completer's channel is modelled in `FileProtocol.dfy` and not in `FileRing.dfy`, where a send never waits.
- File offsets and ids are unbounded integers; 64-bit overflow is not modelled.
- Submission.SubmitQueue.SubmitEntry: the uncontended path only, because the contended one, with its retries, is the subject of `Claims.dfy`.
- Blocking.Ring.Nop: the kernel completes between two scans only, because onEntry is one method call there; completions in the middle of a scan are the subject of `DispatchSerial.dfy`.
- Blocking.Ring.NopMany: as for `Nop`.
- DispatchTheory.SkippedCompletion: a window as given, not as reached; the run that leads there, and what becomes of the completion, are in `DispatchLoss.dfy`.
- EntryBy.CompletionQueue.Find: the tail may change between its two loads, the entries do not.
