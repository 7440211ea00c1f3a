# daveos: model and proofs

daveos is a cooperative operating system for microcontrollers with power-fail-safe
firmware updates. This project models its core in Dafny and proves what that core
is for:

- the boot journal (`lib/boot/journal.cpp`): two flash sectors of 256-byte records
  of which one is always durable, whatever an interrupted erase or program leaves;
- the A/B boot policy and the update engine (`lib/boot/control.cpp`,
  `lib/update/`): no run bricks the board, a trial is given once, an installation
  number names one image;
- the package producer and the stream parser (`tools/package.py`,
  `lib/update/package.cpp`) as inverses, the block writer as a refinement of
  concatenation, and all of them with the engine as one: what the tool builds is what
  the slot holds when the engine is done;
- the write-once serial number (`lib/otp/`), the task scheduler with its timers and
  watchdog (`lib/core/schedule/`, `lib/watchdog/`), the bus transfer controller
  (`lib/hal/`), buffered output, file transfer and exact time arithmetic.

Each stateful component is a step function on values, about which the theorems are
stated, and a class whose methods are proved to do what the step function says
(files `*Machine.dfy`). Flash answers, clock readings and interrupts are parameters:
a script of events, one for each tick, quantified in every theorem. A script that
ends while work is going on is a power cut.

`dafny verify dfyconfig.toml` checks the whole project.

## Assumptions

- An interrupted erase leaves each cell as it was, blank or unreadable, and a record
  that it changed no longer decodes (`Flash.ErasureEvident`). An interrupted program
  can leave anything inside its write unit; nothing is assumed there.
- The newest record in flash is in the format native to the write unit
  (`JournalLoad.AtMost`); `TornRecord.NativeExactly` shows that this is needed.
  Every record that the journal itself encodes is.
- The board leaves the factory idle, with one confirmed intact image and different
  installation numbers in the two slots (`BoardSafety.Factory`).
- Both metadata sectors end below 2^32 (`Layouts.Searchable`); `JournalScan.ScanEnds`
  shows that the searches of the code need it.
- A confirmation made while the engine has an operation in flight may find it still
  running or finished, but is not the one to be told that it failed
  (`SystemSpec.Acknowledge`); `JournalSwallow.NobodyCommitted` shows that this is
  needed.
- Sequence numbers and counters at their maximum are modelled and refused as in the
  source; the claim that a boot succeeds asks for two numbers left.

## Model

| member | source | states |
|---|---|---|
| `Crc32.UpdateBytes` | lib/util/crc32.h:14-24 | the byte and bit loops compute the register function that all other checksum results are about |
| `Crc32.UpdateSplit` | lib/util/crc32.h:10-24 | updating over two pieces in turn is updating over their concatenation, from every state |
| `Crc32.BurstDetected` | lib/util/crc32.h:14-24 | messages of any length that differ only inside four consecutive bytes have different checksums, from every initial value |
| `Crc32.FiveCancel` | lib/util/crc32.h:14-24 | four bytes is the limit: there are two strings of five bytes that can be exchanged in any place of any message without changing its checksum, from every initial value |
| `Record.RoundTrip` | lib/boot/journal.cpp:67-144 | decoding an encoded snapshot gives it back exactly when decoding's own conditions on sequence number and counter hold, and is refused otherwise, in both record versions |
| `TornRecord.TornProgram` | lib/boot/journal.cpp:98-117 | a record whose programming was cut at any write unit, with anything in that unit, decodes only if it is the record that was being written; no property of the checksum is used |
| `TornRecord.ForeignTears` | lib/boot/journal.cpp:98-144 | a version 1 record in 32-byte units can tear into a different record that decodes to the same snapshot (the input that shows the next row's condition is needed) |
| `TornRecord.NativeExactly` | lib/boot/journal.cpp:67-117 | the guarantee of TornProgram holds for a sealed record if and only if its commit trailer fills the last write unit: always for 16-byte units, version 2 for 32-byte units |
| `Formats.StandardLawful` | lib/boot/journal.cpp:67-144 | the codec satisfies every law that the journal proofs use, for both write units |
| `JournalSafety.StandardReady` | lib/boot/journal.cpp:67-144 | the real codec and checksum, with metadata sectors that end below 2^32, meet the one hypothesis (`Ready`) under which the journal, boot and update theorems are stated |
| `Layouts.CheckValid` | lib/boot/journal.cpp:39-65 | the loops over the four regions accept exactly the layouts whose regions are aligned, below 2^32 and pairwise disjoint |
| `JournalScan.ScanEnds` | lib/boot/journal.cpp:238-262 | the search for a blank record in a full sector ends if and only if the sector does not end at 2^32: the 32-bit address never reaches the 64-bit bound |
| `JournalScan.ScanVisits` | lib/boot/journal.cpp:238-262 | if both sectors end below 2^32 the search visits the records of the sector in order, by their 32-bit addresses, and stops behind the last one |
| `JournalLoad.LoadExact` | lib/boot/journal.cpp:146-203 | for every flash content: the backward scan with its early rejections answers ok only with a decoding record of the largest sequence number that no other record contradicts; reports a conflict if and only if some visited record differs from an earlier visited one with its number and none before it was newer; and answers not-found or an i/o error only if no record decodes |
| `JournalLoad.ConflictReported` | lib/boot/journal.cpp:146-203 | two different decoding records that share the largest sequence number are always reported as a conflict, wherever they lie |
| `JournalLoad.LoadHolds` | lib/boot/journal.cpp:146-203 | if some record decodes to s, none is newer and none conflicts, load answers ok with s |
| `JournalSafety.HoldsUnique` | lib/boot/journal.cpp:146-203 | the durable snapshot of a flash content is unique |
| `JournalSafety.TornCell` | lib/boot/journal.cpp:309-393 | whatever an interruption of the operation in flight leaves, the old or the new snapshot is durable |
| `JournalSafety.TornCopyRefused` | lib/boot/journal.cpp:146-203 | the torn copy of a version 1 record in 32-byte units next to its original, if nothing newer is there, makes load answer a checksum error |
| `JournalRuns.TickSafe` | lib/boot/journal.cpp:298-393 | every tick, whatever the device answers, keeps the crash invariant, never touches an image slot, and answers ok only when the new snapshot is durable and read back |
| `JournalCommit.LoadSafe` | lib/boot/journal.cpp:146-203 | load leaves a busy device alone, otherwise returns the one durable snapshot, also right after a broken operation |
| `JournalCommit.BeginSafe` | lib/boot/journal.cpp:205-296 | a commit that begins plans a place whose erase and program keep a durable snapshot; one that does not begin changes nothing |
| `JournalCommit.CommitAtomic` | lib/boot/journal.cpp:459-474 | crash atomicity from a journal that holds a snapshot: a cut after any number of ticks of a commit, with any result of every operation before it, leaves exactly the old or the new snapshot to be loaded, never neither and never a conflict; a commit that answered ok leaves the new one |
| `JournalInitial.FirstCommitAtomic` | lib/boot/journal.cpp:205-474 | and from an empty journal: a cut after any number of ticks of the initializing commit leaves nothing that decodes or exactly the new snapshot with sequence number 1, whatever lay in the sectors before; ok means that it is the new one; no image slot is touched |
| `JournalCommit.PrepareAtomic` | lib/boot/journal.cpp:395-457 | preparing for an application, cut anywhere, never changes the durable snapshot; ok means that the bank is blank and the snapshot lies in the other bank |
| `JournalPrompt.PromptRun` | lib/boot/journal.cpp:298-393 | a run in which operations start, none breaks and no timeout passes ends ok, however many polls each operation takes, uses at most the finished operations it needs, and leaves exactly the records foreseen at its start |
| `JournalBudget.CommitSpends` | lib/boot/journal.cpp:240-290 | such a commit at runtime either succeeds and spends one unit of the budget F + R * E (F free records in the inactive bank, E in the executing bank, R records a sector), or the budget is zero, the answer is full and nothing changes |
| `JournalBudget.BudgetExact` | lib/boot/journal.cpp:205-296 | of any series of fault-free runtime commits exactly the first F + R * E succeed and every later one is answered full |
| `JournalBudget.PreparedBudget` | lib/boot/journal.cpp:395-457 | after a successful prepare_runtime the budget is F + R * R with a blank executing bank |
| `JournalBound.NeverErasesExecuting` | lib/boot/journal.cpp:245-290 | no commit made while executing from a bank, however it goes, has an erase in flight other than of the other bank's sector |
| `JournalHistory.HistoryMonotone` | lib/boot/journal.cpp:146-474 | over every history of loads, commits and preparations with cuts anywhere, the sequence number and counter answered never decrease and each ok commit has a larger sequence number than everything before |
| `JournalSwallow.SwallowedFailure` | lib/boot/journal.cpp:298-393 | an interrupted program whose failure is reported to somebody else is taken for finished: ticks without a further fault complete the record with the damaged unit, and load then returns the old snapshot if that record does not decode and what it decodes to if that is newer |
| `JournalSwallow.ForgedDecodes` | lib/boot/journal.cpp:98-144 | the record with five bytes of its checksummed part changed still decodes, with the same sequence number, to a snapshot with another size for slot B |
| `JournalSwallow.NobodyCommitted` | lib/boot/journal.cpp:298-393 | the input: with the real codec in 16-byte units a swallowed failure in the ninth unit can leave a snapshot for load that is neither the old nor the new one |
| `ControlSafety.SelectSafe` | lib/boot/control.cpp:30-75 | from a safe flash, select keeps it safe wherever the power goes, stops short of a slot only in one of its two commits, and what it returns verifies and is what flash records |
| `ControlPrompt.BootCommit` | lib/boot/journal.cpp:205-244 | a boot-time commit without a fault succeeds whatever the journal holds: placement at boot never finds it full |
| `ControlPrompt.SelectSucceeds` | lib/boot/control.cpp:30-75 | a selection without a fault, with two sequence numbers left, returns ok and a slot whose image verifies |
| `ControlPrompt.BriskSelect` | lib/boot/journal.cpp:459-474 | clock readings that lie within one operation timeout and do not run backwards are enough for both commits to be in time |
| `EngineSafety.TornKept` | lib/update/engine.cpp:109-306 | whatever an interruption during an update leaves, a durable snapshot with a confirmed intact image is there |
| `EngineTicks.TickKept` | lib/update/engine.cpp:109-306 | every tick of the update engine in every state, with every answer of flash, keeps the board's crash invariant, changes the durable snapshot only by withdrawing the destination or adding a new pending installation, and never touches the running slot |
| `SystemSafety.InstallSafe` | lib/update/engine.cpp:38-74 | asking for an installation keeps the invariant and changes nothing durable, in each outcome of begin |
| `SystemSafety.FlagsSafe` | lib/update/engine.cpp:21-105 | reserve, release, chunk, abort and enable keep the invariant |
| `SystemSafety.PolledEngine` | lib/update/engine.cpp:109-306 | the engine invariant survives a poll that somebody else made |
| `EngineInstall.InstallTick` | lib/update/engine.cpp:109-306 | every tick of the engine, with every answer of flash, keeps engine, parser, writer and slot in step: the slot holds exactly the blocks that the parser has handed over, the parser has consumed exactly the chunks received |
| `EngineInstall.InstallExact` | lib/update/engine.cpp:38-306 | for every stream cut into chunks and ticks in any way, with refusals, broken operations, aborts and timeouts anywhere: if the engine ends done, the slot holds exactly the image linked for it and load returns a snapshot that offers it as pending under the next installation number |
| `EngineFinish.BeginSucceeds` | lib/boot/journal.cpp:205-296 | a commit begins ok, with the ticks it needs bounded, whenever the journal does not answer full |
| `EngineFinish.BootRoom` | lib/boot/journal.cpp:205-244 | at boot the journal always has room |
| `EngineFinish.BudgetRoom` | lib/boot/journal.cpp:245-290 | at runtime it has room while the budget F + R * E is not spent |
| `EngineFinish.DriveFinishes` | lib/update/engine.cpp:109-306 | without a fault and with every tick in time, an installation underway ends done after at most a given number of finished operations, however many polls each takes |
| `EngineFinish.InstallFinishes` | lib/update/engine.cpp:38-306 | from an idle engine and a confirmed running image: begin answers ok, and a sender that offers the next bytes whenever the engine accepts brings it to done, with the slot equal to the image and Pending durable |
| `EngineFinish.InstallsPackage` | tools/package.py:21-69 | the same from the producer on: every package that the tool builds for the layout is accepted and installed whole; the slot ends equal to the image that was given to the tool for it |
| `BoardSafety.BoardStep` | lib/boot/control.cpp:30-95 | every boot, tick, request, confirmation and cut keeps the board invariant, and each durable snapshot descends from the one before: same image in a slot, or a new installation number |
| `BoardSafety.NoBrick` | lib/boot/control.cpp:8-75 | after any run and any further cut: load returns a snapshot with a confirmed intact image and no claim about a damaged one; select can stop only in a commit; whatever it returns verifies; and without a fault, with two sequence numbers left, it returns a slot |
| `BoardSafety.TrialsGivenOnce` | lib/boot/control.cpp:36-95 | in every run an installation is selected as a trial at most once and before any other selection of it; a later selection finds it durably confirmed, by a confirmation published after the trial |
| `BoardSafety.InstallationsUnique` | lib/update/engine.cpp:226-262 | two snapshots durable at any two moments of a run that carry the same installation number carry it in the same slot for the same image: only its state may differ |
| `BoardBound.ExecutingSpared` | lib/boot/journal.cpp:245-290 | in every state of every run of the board, an erase in flight by the engine, its writer or a confirmation leaves the executing bank's journal sector alone |
| `Packaging.AcceptedExactly` | tools/package.py:36-52 | a block gets patch codes if and only if each of its words is equal in both images or moved by plus or minus the slot displacement |
| `Packaging.PatchRelocates` | lib/update/package.cpp:73-94 | applying the patches of a block turns its slot A bytes into its slot B bytes |
| `Packaging.PatchKeeps` | lib/update/package.cpp:73-94 | for slot A the same patches are checked and change nothing |
| `PackageTrip.RoundTrip` | lib/update/package.cpp:59-182 | for every accepted pair of images, every previous parser state, every way of cutting the payload into chunks and every timing of the takes, the blocks taken are a prefix of the image linked for the destination; the parser never fails, and is done exactly when the whole image has been taken |
| `PackageTrip.Progress` | lib/update/package.cpp:96-182 | until it is done there is always a move that brings the end nearer |
| `PackageBuild.Accepted` | tools/package.py:60-69 | the target accepts the header of every package built for its layout and a slot the package is for, decodes what was asked, and the payload is one that RoundTrip speaks of, with the checksum of the right image |
| `PackageBuild.BlockPatches` | tools/package.py:36-54 | the loop over the words of a block computes its patch codes, or refuses it |
| `PackageBuild.BuildPackage` | tools/package.py:21-69 | the whole producer, its argument checks and loops included, returns the specified package or none |
| `WriterSafety.TickInSlot` | lib/update/writer.cpp:36-105 | a tick of the writer polls, or starts an operation inside the slot, or leaves the device alone |
| `WriterRefine.TickRefined` | lib/update/writer.cpp:36-105 | every tick keeps the slot equal to what has been written so far, programs only blank words and erases only behind everything written |
| `WriterRefine.WritesImage` | lib/update/writer.cpp:8-105 | for every valid layout, sector geometry and timing, if consecutive blocks are all written ok the slot holds their concatenation, padded with erased cells |
| `WriterRefine.CleanBlock` | lib/update/writer.cpp:8-105 | without a fault a block is written ok if and only if it is not empty, aligned and inside the slot |
| `OtpSafety.TypeSealed` | lib/otp/record.cpp:25-36 | one body never checks for two different record types |
| `OtpSafety.SerialRoundTrip` | lib/otp/record.cpp:38-69 | the record made for a valid serial number is valid and carries it |
| `OtpSafety.TornCommit` | lib/otp/flash.cpp:79-113 | a block whose commit word was torn reads as the record that was being written or as none |
| `OtpStore.LockEffect` | lib/otp/flash.cpp:174-206 | locking only adds to the lock area and never changes what a block reads as |
| `OtpStore.InitSession` | lib/otp/store.cpp:35-71 | init finds the newest valid serial number, and every block from the next one on is blank |
| `OtpStore.SetSerialAtomic` | lib/otp/store.cpp:95-135 | whatever becomes of each write and wherever the power goes, init afterwards finds the old number or the new one; only blank cells of one block were written; from a current cache, ok means that the new number is found |
| `OtpStore.LifeSafe` | lib/otp/store.cpp:35-135 | over any number of sessions no written cell ever changes again, and the number found is the first one or one that was asked for |
| `OtpStore.StaleCache` | lib/otp/store.cpp:95-114 | the input that shows the cache can be stale: a commit that lands but is reported failed, then the cached number asked for again, is answered ok while init would find the other number |
| `OtpStore.CallTrust` | lib/otp/store.cpp:95-152 | in every session, also with a stale cache: after a call the cache is current if and only if the call did not land unnoticed (failed, used up a block, kept the cached number, and its record is in flash after all) and it either replaced the cached number or found the cache current |
| `OtpStore.OkTrue` | lib/otp/store.cpp:95-135 | in a session in which `remaining` and `serial_block` never showed a doubtful call, every ok answer is true: init would find the number asked for |
| `OtpStore.OkExactly` | lib/otp/store.cpp:95-135 | over any session from init: an ok answer is false if and only if some earlier call landed unnoticed, no call since then replaced the cached number, and the number asked for is the cached one |
| `SchedulerBypass.ChoosesEarliest` | lib/core/schedule/scheduler.hpp:338-362 | the main loop selects work that is due no later than any other due task or event |
| `SchedulerBypass.NothingAdded` | lib/core/schedule/scheduler.hpp:338-362 | no step of a run adds work due before the clock |
| `SchedulerBypass.BoundedBypass` | lib/core/schedule/scheduler.hpp:326-378 | once the clock has passed the due time of pending work, fewer selections precede its own than there were iterations and events due by then, whatever else is posted, scheduled or yields |
| `SchedulerCadence.TimeConserved` | lib/core/schedule/scheduler.hpp:659-699 | in every state of every run no task is entered twice, own times are never negative, and when no callback runs the own times of all tasks add up to the time of the outermost callbacks |
| `SchedulerCadence.CadenceKept` | lib/core/schedule/scheduler.hpp:646-699 | in every state of every run an active repeating task is due at its first due time plus one interval for each completed iteration and one for the iteration in progress, up to saturation |
| `SchedulerCadence.CheckProgress` | lib/watchdog/watchdog.hpp:41-62 | reports a failure exactly when some repeating task has an incomplete iteration whose deadline is older than the allowance, and names the first |
| `SchedulerCadence.OldestIncomplete` | lib/core/schedule/scheduler.hpp:646-699 | below saturation the oldest incomplete deadline is the due time of the iteration in progress or, when none is, the task's due time |
| `SchedulerCadence.WatchRun` | lib/watchdog/watchdog.hpp:34-62 | over whole runs of the scheduler: a failure exactly when an active repeating task has its iteration in progress, or its next one when none is, due before the allowance |
| `TimersSafety.TimersSafe` | lib/core/schedule/scheduler.hpp:884-934 | over every run: outside the interrupt the hardware timer is armed for the earliest active due time, active callbacks are distinct, nothing fires early and no request fires twice |
| `TimersSafety.RetiredForever` | lib/core/schedule/scheduler.hpp:520-534 | a request that was cancelled or replaced never fires in any continuation |
| `TimersSafety.CancelRetires` | lib/core/schedule/scheduler.hpp:520-534 | cancelling a callback, or setting it again, retires its request |
| `TimersSafety.FiresEarliest` | lib/core/schedule/scheduler.hpp:904-934 | each round of the interrupt fires the earliest due timer or, when none is left, ends with the hardware armed again |
| `HalSafety.ExactlyOnce` | lib/hal/controller.hpp:126-541 | under every interleaving of starts, resets, interrupts and deliveries, and every answer of the backend to a poll and to the check after it, accepted transfers are the completed ones and the active one, each completed transfer's callback is invoked exactly once or is in hand to be, and ok means that all actions completed |
| `HalSafety.DeadlineEnds` | lib/hal/controller.hpp:214-400 | ticks at or after the deadline end the operation whatever the backend does |
| `HalSafety.InterruptMeetsDeadline` | lib/hal/controller.hpp:166-197 | one interrupt at or after the deadline is enough: its eight ticks end the operation and hand out the callback |
| `Clock.Add` | lib/hal/detail/actions.hpp:18-24 | the checked sum is the exact sum, or none if that exceeds the largest time, without overflowing on the way |
| `Durations.ToMicroseconds` | lib/core/foundation/duration.hpp:22-46 | for every representation and period: ok if and only if the duration is a whole number of microseconds below forever, and then exactly that number |
| `Timeouts.Multiply` | lib/hal/detail/actions.hpp:26-32 | the checked product is the exact product, or none if that exceeds the largest time |
| `Timeouts.SumActions` | lib/hal/detail/actions.hpp:204-213 | the sums of bits and pauses over the actions, or none if either exceeds the largest time |
| `Timeouts.Timeout` | lib/hal/detail/actions.hpp:198-226 | the default timeout is the requested one, or the least number of microseconds that covers the bits at the rate, scaled, with margin and floor, plus all pauses; refused exactly for malformed actions, a zero rate or a value that cannot be represented |
| `Output.BufferedOutput.Write` | lib/console/output.hpp:40-50 | text joins the frame whole or spoils it |
| `Output.BufferedOutput.Flush` | lib/console/output.hpp:52-64 | a frame goes whole behind the queued ones or is dropped whole and counted; the half the driver owns is not touched; every transfer handed over is a run of whole accepted frames in order |
| `Output.BufferedOutput.Start` | lib/console/output.hpp:105-116 | hands the filling half to an idle driver as the queued frames, or drops the queue if it refuses |
| `Output.BufferedOutput.Complete` | lib/console/output.hpp:66-75 | counts what was sent and hands over what waits |
| `Output.BufferedOutput.Error` | lib/console/output.hpp:80-84 | forgets everything queued; later frames start afresh |
| `Output.BufferedOutput.Discard` | lib/console/output.hpp:88-92 | forgets the frame being collected and everything queued |
| `FileTransfers.FileTransfer.Begin` | lib/storage/transfer.cpp:88-135 | a session reserves the volume first and then opens, creates or removes; an upload creates a file that was not there |
| `FileTransfers.FileTransfer.WriteChunk` | lib/storage/transfer.cpp:140-157 | an acknowledged chunk is appended whole and the acknowledged checksum is that of all acknowledged bytes |
| `FileTransfers.FileTransfer.ReadChunk` | lib/storage/transfer.cpp:195-219 | a chunk of a download is the next bytes of the file, with the checksum of everything read |
| `FileTransfers.FileTransfer.Execute` | lib/storage/transfer.cpp:77-222 | without an answer the session is to be cleaned up; that is ok for an upload only if the file is complete, checks and is synchronized; the acknowledged bytes grow by the payload of an answered write, are empty after an upload begins and stay otherwise |
| `FileTransfers.FileTransfer.Cleanup` | lib/storage/transfer.cpp:224-255 | an ok upload leaves exactly the acknowledged bytes, of the declared size and checksum, closed and synchronized; a failed or disconnected one leaves the volume as it was unless removing failed; the volume is released once for each reservation and nothing else is removed |
| `FileTransfers.FileTransfer.Receive` | lib/storage/transfer.cpp:36-58 | a complete request waits to be executed and changes nothing else |
| `FileTransfers.FileTransfer.Sent` | lib/storage/transfer.cpp:60-65 | a reply that was sent makes room for the next request |
| `FileTransfers.FileTransfer.Tick` | lib/storage/transfer.cpp:257-286 | every step keeps the session invariant and changes the acknowledged bytes only by an answered request; a created file is given up only by the cleanup, with all that Cleanup guarantees |
| `JournalMachine.Scan` | lib/boot/journal.cpp:158-199 | the loop of load computes the specified scan |
| `JournalMachine.FindBlank` | lib/boot/journal.cpp:238-262 | the search loop over 32-bit addresses finds the first blank record, in sectors that end below 2^32 |
| `JournalMachine.Journal.Load` | lib/boot/journal.cpp:146-203 | the object does what the specification of load says and changes nothing but the latest place |
| `JournalMachine.Journal.Begin` | lib/boot/journal.cpp:205-296 | the object does what the specification of begin says, its plan included |
| `JournalMachine.Journal.Tick` | lib/boot/journal.cpp:298-393 | one tick of the object on the flash object is one tick of the specification |
| `JournalMachine.Journal.Commit` | lib/boot/journal.cpp:459-474 | the foreground loop is the specified run |
| `JournalMachine.Journal.PrepareRuntime` | lib/boot/journal.cpp:395-457 | both runs of the object are those of the specification |
| `ControlMachine.Accumulate` | lib/boot/control.cpp:14-27 | reading and summing a slot in 256-byte pieces gives the checksum of the image, or the first read failure |
| `ControlMachine.Control.Verify` | lib/boot/control.cpp:8-28 | the object's verification is the specified one |
| `ControlMachine.Control.Choose` | lib/boot/control.cpp:48-63 | the loop over the two slots makes the specified choice |
| `ControlMachine.Control.Select` | lib/boot/control.cpp:30-75 | the object selects as specified, its commits included |
| `ControlMachine.Control.ConfirmImage` | lib/boot/control.cpp:77-95 | the object confirms as specified |
| `PackageMachine.PackageReader.Apply` | lib/update/package.cpp:73-94 | patching the buffer in place gives the specified block, or refuses where it does |
| `PackageMachine.PackageReader.Tick` | lib/update/package.cpp:96-182 | one tick of the object, with its buffers reused in place, represents one tick of the specification |
| `WriterMachine.Writer.Begin` | lib/update/writer.cpp:8-32 | the object begins as specified |
| `WriterMachine.Writer.Tick` | lib/update/writer.cpp:36-105 | one tick of the object is one tick of the specification |
| `SchedulerMachine.Scheduler.Dispatch` | lib/core/schedule/scheduler.hpp:338-362 | the two scans over the task and event arrays make the specified selection |
| `SchedulerMachine.Scheduler.Yield` | lib/core/schedule/scheduler.hpp:442-478 | the nested dispatch of the object is the specified one, and its result says exactly whether it was called outside a callback, found nothing due, was too deep or ran a task |
| `SchedulerMachine.Scheduler.Post` | lib/core/schedule/scheduler.hpp:498-516 | an event is queued with the time of posting if there is room |
| `SchedulerMachine.Scheduler.Schedule` | lib/core/schedule/scheduler.hpp:811-837 | a task is rescheduled under a new generation, or the result says exactly why not |
| `SchedulerMachine.Scheduler.Cancel` | lib/core/schedule/scheduler.hpp:839-860 | an active task is cancelled under a new generation; any other is reported as not found |
| `SchedulerMachine.Scheduler.Finish` | lib/core/schedule/scheduler.hpp:659-699 | a returning callback is accounted as specified |
| `TimersMachine.TimerTable.Set` | lib/core/schedule/scheduler.hpp:612-638 | the object sets or replaces a timer as specified; the result is full exactly when every slot holds another callback, and invalid exactly for no delay or no callback |
| `TimersMachine.TimerTable.Cancel` | lib/core/schedule/scheduler.hpp:520-534 | the object cancels as specified; not found exactly when the callback is not set |
| `TimersMachine.TimerTable.FireOne` | lib/core/schedule/scheduler.hpp:904-934 | one round of the interrupt on the object is the specified one |
| `TimersMachine.TimerTable.Rearm` | lib/core/schedule/scheduler.hpp:884-899 | the scan for the earliest due time arms the hardware as specified |
| `HalMachine.Controller.Start` | lib/hal/controller.hpp:467-541 | the object accepts or rejects a transfer as specified |
| `HalMachine.Controller.Reset` | lib/hal/controller.hpp:126-161 | the object accepts or rejects a reset as specified |
| `HalMachine.Controller.Transfer` | lib/hal/controller.hpp:226-314 | the transfer tick, its in-place steps through polls, retries, limits and actions included, is the specified one |
| `HalMachine.Controller.WaitPause` | lib/hal/controller.hpp:315-325 | the pause tick is the specified one |
| `HalMachine.Controller.Finish` | lib/hal/controller.hpp:326-351 | the finishing tick counts, cleans up and notifies as specified |
| `HalMachine.Controller.Step` | lib/hal/controller.hpp:214-400 | one tick of the object is one tick of the specification |
| `HalMachine.Controller.Interrupt` | lib/hal/controller.hpp:166-197 | the eight-tick loop and the callbacks taken are those of the specification |
| `OtpMachine.ScanBlocks` | lib/otp/store.cpp:50-69 | the loop of init finds the next free block and the newest valid serial number |
| `OtpMachine.FlashOtp.Write` | lib/otp/flash.cpp:115-138 | one word written through the object is the specified write, whatever becomes of it |
| `OtpMachine.FlashOtp.Program` | lib/otp/flash.cpp:140-172 | the object programs a record as specified |
| `OtpMachine.FlashOtp.Lock` | lib/otp/flash.cpp:174-206 | the object locks a block as specified |
| `OtpMachine.SerialStore.SetSerial` | lib/otp/store.cpp:95-135 | the object sets the serial number as specified |

## Findings

Where the code as it stands does not do what it is meant to; each is shown by a lemma
with the input, and the condition under which it happens is proved.

- `lib/otp/store.cpp:95-135`: after a write that lands but is reported failed, the
  cached serial number is stale; asking for it again answers ok although a reboot
  finds the other number (`OtpStore.StaleCache`). The cache stays stale until a call
  replaces the cached number. Exactly when, over whole sessions:
  `OtpStore.OkExactly`. A caller can see the doubtful call in `snapshot()` by
  `remaining` and `serial_block` (`OtpStore.Doubtful`), and without one every ok is
  true (`OtpStore.OkTrue`).
- `lib/boot/journal.cpp:278-289`: a checkpoint copies the newest record byte for
  byte. If that is a version 1 record in 32-byte units, the cut copy can decode and
  differ (`TornRecord.ForeignTears`), which load reports as a conflict
  (`JournalSafety.TornCopyRefused`). Exactly when: `TornRecord.NativeExactly`.
- `lib/boot/journal.cpp:238-247`, `251-262`, `425-433` and `441-447`: a search of a
  sector that ends at 2^32, which `Layout::valid` accepts, wraps and does not end by
  its bound. The boot search at 238-247 adds in `size_t`, which has 32 bits on the
  target. Exactly when: `JournalScan.ScanEnds`.
- `lib/boot/journal.cpp:309-393` with `lib/boot/control.cpp:77-95`: a tick takes an idle
  device for a finished operation. If a confirmation polled the failure of an operation
  of the engine's journal first, the engine completes the damaged record. Load then
  returns the old snapshot, or one that nobody committed if the damaged record decodes
  (`JournalSwallow.SwallowedFailure`), and there is an input for which it does
  (`JournalSwallow.NobodyCommitted`).

## Left out

- EngineSpec: the update engine is modelled on values only; its update in place is
  not captured. Its journal, writer and parser are, as classes.
- JournalSpec.FirstBlank: is defined for every valid layout; for a sector that ends at
  2^32 the code differs as JournalScan.ScanEnds says, and no theorem about
  the journal speaks of one.
- JournalSpec.Load: layouts that `Layout::valid` rejects and flash drivers without
  functions are answered with an argument error before anything else and are not
  part of this model.
- SchedulerSpec.TakeTask: a callback's start is the time of its selection, where
  `RunTask` reads the clock again; the time between counts as part of the callback.
- SchedulerSpec: module initialization, stopping, sleeping, statistics other than own
  times, and logging would only add easy members.
- SystemSpec.Acknowledge: leaves out a confirmation whose own poll reports the failure
  of an operation of the engine, which then sees an idle device; what that can lead to
  is JournalSwallow.SwallowedFailure.
- OtpSpec.Inspect: reads that report busy or an i/o error before the block is reached
  are not part of this model; unreadable cells are.
- HalSpec.Start: validation of each kind of action and the counters for each device
  would only add easy members; a rejected transfer is modelled.
- Timeouts.Timeout: takes the bits and pause of each action as given; the table that
  measures each kind of action is left out.
- FileTransfers.FileTransfer.Continue: listing entries are answered without their
  names; making and removing directories is an effect on the volume that the file
  map does not show.
- FileTransfers.FileTransfer.Receive: takes whole requests; wire framing, sequence
  numbers and the idle clock of the receiver appear as its verdict (`expired`,
  `malformed`).
- The console, shell, drivers, board support, network and the other tools of the
  repository.
