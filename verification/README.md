# Verified models of the course programs

The repository holds small C programs of an operating-systems course: copies between two processes, a
bounded buffer with threads, a shell, a backup daemon, a file server over FIFOs and a distributed
integral.  This project models the ones that are protocols or algorithms and proves what they are for.

Concurrent programs are step machines: a state, an event for every atomic step of every process, and runs
that are arbitrary interleavings (`Runs.Exec`).  The results of the system calls that the proofs depend on are
part of the events or are parameters: short reads and writes, failures, signals that find the other side
gone, files that do not open, commands that are cut or do not start; what is taken to succeed is listed at
the end.  Handlers, loops and critical sections are written again as methods that change objects and arrays
in place; their contracts say that what they do is a run of the step machine, or equal a function whose
properties are proved.

| files | program |
|---|---|
| `runs.dfy`, `c_text.dfy` | sequences, runs, invariants; C strings, `printf` and `scanf` of numbers |
| `signal_transfer*.dfy`, `signal_handlers.dfy`, `seeding.dfy` | `task_5`: copy through eight slots of shared memory, driven by queued signals |
| `producer_consumer*.dfy`, `monitor.dfy` | `sem_4`: bounded buffer, K producers, N consumers, two condition variables |
| `copy_spec.dfy`, `shm_transfer.dfy`, `shm_endings.dfy`, `shm_loops.dfy` | `sem_3`: the file copy through shared memory, and the specification all three copies refine |
| `mq_transfer.dfy`, `mq_truncation.dfy`, `mq_endings.dfy`, `fifo_transfer.dfy`, `copy_loops.dfy` | `sem_3`: the copies through a message queue and a FIFO |
| `command_line.dfy`, `command_shape.dfy`, `glued_pipes.dfy`, `glued_limits.dfy`, `command_parser.dfy` | `sem_1`: the command-line parser |
| `pipeline*.dfy`, `run_cmd.dfy` | `sem_1`: the descriptors of an n-stage pipeline |
| `metadata_filter.dfy`, `line_diff*.dfy`, `diff_filter.dfy` | `task_6`: the text of diffs, the metadata before them and the filter that takes it out |
| `backup_history.dfy`, `backup_theorems.dfy`, `backup_first.dfy`, `stored_diffs.dfy`, `restored_files.dfy`, `backup_store.dfy` | `task_6`: base copies, diffs and restore over the life of the daemon |
| `change_queue.dfy`, `stat_scan.dfy` | `task_6`: change tracking |
| `framing.dfy`, `file_transfer.dfy`, `client_table.dfy`, `client_session.dfy`, `server_table.dfy` | `task_7`: file frames, the table of clients, commands |
| `task_format.dfy`, `distributed_integral.dfy`, `integral_theorems.dfy`, `integral_text.dfy` | `task_8`: the text of tasks and results, the split of an integral, what the sum is worth |

`dafny verify dfyconfig.toml` checks the whole project.

## What turned out false

- A signal-driven copy can be reported as successful and be incomplete: when announcing a block fails, the
  next handler overwrites `PROD_END_FAIL` with `PROD_END_SUCC` (`DroppedBlockReportedAsSuccess`).  The copy
  is right exactly when no announcement and no write failed (`LeavesWithWholeFile`).
- The child of that program exits with 1 even after success, because nothing sends `SIG_EXIT`
  (`ExitCodeIsOne`).  For every file there is a run without failures in which both processes end, and one in
  which neither ever does, because the child pauses just before the last end code is stored
  (`EveryCopyCanEnd`, `EveryCopyCanHang`): both can still end exactly if the child is not asleep behind its last
  block (`EndsIffAwake`).
- The program with producers and consumers wakes nobody when main stops it.  It can still end exactly if no more
  consumers sleep than signals are still to be sent (`CanEndIff`); every program can end, and every program can
  get stuck (`EveryProgramCanEnd`, `EveryProgramCanHang`).
- The message-queue copy can be cut short without any failing call exactly when the file can be read in
  blocks of which one, laid over what the receive buffer held, begins with "EOF" and has at most as many
  blocks behind it as the queue holds (`BlocksTruncateIff`, `FileTruncatesIff`, `EofFileIsTruncated`).  The
  sender can then be stuck for ever in front of the full queue (`SenderCanGetStuck`); after a failed read of the
  sender, nothing but a failure ends the receiver (`MqEndings.HowTheyEnd`).
- Parsing glued pipes is the same as parsing spaced pipes, for an accepted line, exactly when no token has
  two pipes or odd white space behind its pipe (`GluedIffClean`, `SecondPipeIsKept`); a line with too many
  commands is rejected either way, and one with too many arguments exactly when a command between its
  pipes has more than 255 words (`GluedIff`, `GluedTooLong`).
- An accepted line can have empty commands: exactly where a pipe stands at the front of a token behind nothing
  or behind another pipe (`EmptyCommandIff`, `LonePipe`).
- A pipeline is wired correctly exactly when descriptors 0 and 1 are open at the start
  (`ConnectedIffStandard`).  The shell is left with both ends of the last pipe (`ShellDescriptors`), and after a
  failed fork with those of the pipe before as well (`FailedForkLeaks`).
- The server logs a transfer as completed although a short write has cut the header: the frame is delivered
  exactly when it is logged as completed and the header was taken whole (`DeliveredIff`); for every file,
  one byte of the header and the whole body is such a run (`ShortHeaderGoesUnnoticed`).
- Restoring fails exactly for a diff with a line "---", which the filter takes for the end of the metadata:
  for every script that fits the two files, that is one that removes a line "--" (`RestoreIffNoDashes`,
  `NoDashesIffClean`, `RemovedDashesAreLost`).  The same two files can have a script that can be restored
  and one that cannot (`ScriptsDiffer`).
- The commands are built in 2048 bytes.  A longer diff command is cut and compares nothing, so the stored
  diff is empty and restoring reports success with the base copy (`WhenTheCommandIsCut`,
  `LongPathsRestoreTheBase`); a patch command whose files could be opened is never cut (`PatchCommandFits`).
- A file whose flattened path does not fit a directory entry is never backed up, and restoring it fails
  (`LongNamesAreNeverRestored`); if only the diff's name is too long, restoring gives the base copy as a
  success (`UnstoredSampleGivesBase`).
- Two files share their copies exactly when their paths differ only in "/" against "_", as a/b and a_b do
  (`NamesCollideIff`, `NameOfExample`); when both change in a sample, restoring the first gives what the
  second held (`CollisionRestoresTheOther`).
- A client's request is understood exactly if the name of the file is not empty, has no white space and at most
  255 characters (`RequestIsUnderstoodIff`).
- A line of a diff that has "---" behind exactly 4095 characters loses that end in the filter
  (`LongLinesAreBroken`).
- With fewer points than servers the distributed sum is NaN as soon as a server without points answers
  (`SumIsNumberIff`, `RemoteSumIsNumberIff`).

## Model

| member | source | states |
|---|---|---|
| `SignalTransferProofs.PlacesConserved` | task_5/homework/src/handler.c:28-117 | every step of either process keeps the number of places each slot number is in |
| `SignalTransferProofs.TransitRead` | task_5/homework/src/handler.c:43-51 | a block read into a slot that is nowhere else comes after all bytes already in flight |
| `SignalTransferProofs.TransitWrite` | task_5/homework/src/handler.c:88-106 | a partial write takes its bytes from the front of the bytes in flight |
| `SignalTransferProofs.InvRun` | task_5/homework/src/handler.c:28-117 | ownership, byte accounting and end codes hold in every reachable state |
| `SignalTransferTheorems.LossHistory` | task_5/homework/src/handler.c:55-59 | bytes are lost exactly in runs with a failed announcement or write, up to the child's end |
| `SignalTransferTheorems.LeavesWithWholeFile` | task_5/homework/src/main.c:132-136 | a child that leaves after PROD_END_SUCC has written the first file_size bytes of the input if and only if no announcement and no write failed, in every interleaving |
| `SignalTransferTheorems.OutputIsFinal` | task_5/homework/src/main.c:132-141 | nothing is written after the child left its loop |
| `SignalTransferTheorems.OutputIsPrefix` | task_5/homework/src/handler.c:93-106 | the output is a prefix of the input in every reachable state while announcements succeed |
| `SignalTransferTheorems.ExitCodeIsOne` | task_5/homework/src/main.c:136-141 | the child's exit code is 1 in every run |
| `SignalTransferTheorems.SlotsAreOwnedOnce` | task_5/homework/src/main.c:122-130 | each of the eight slot numbers is in exactly one place, queues hold at most eight, only valid numbers are delivered, also when a signal interrupts the seeding |
| `SignalTransferTheorems.NoSlotIsOverwritten` | task_5/homework/src/handler.c:43-47 | a read never changes a block that waits to be written or is being written |
| `SignalTransferTheorems.DroppedBlockReportedAsSuccess` | task_5/homework/src/handler.c:55-63 | a run that ends with PROD_END_SUCC and an empty output for a one-byte file |
| `SignalTransferProgress.RunsAreFinite` | task_5/homework/src/handler.c:28-117 | without failures no run is longer than 20 steps a byte and 160 |
| `SignalTransferProgress.NextEvent` | task_5/homework/src/main.c:122-150 | without failures some process can step until the file is delivered |
| `SignalTransferProgress.MaximalRunsDeliver` | task_5/homework/src/main.c:122-150 | a failure-free run that cannot go on has delivered the whole file, and both processes have ended or the parent waits for a sleeping child |
| `SignalTransferProgress.CanAlwaysFinish` | task_5/homework/src/main.c:122-150 | every failure-free run can be continued until the file is delivered and the processes have ended or hang |
| `SignalTransferEndings.HowTheyEnd` | task_5/homework/src/main.c:122-150 | in every run: when an end code is stored, when the child has left, when the parent waits and when it has ended, each if and only if certain events have happened in order |
| `SignalTransferEndings.EndCodeIsExact` | task_5/homework/src/handler.c:61-68 | the code at the end is success if and only if as many bytes were read as the file had |
| `SignalTransferEndings.ReadIsRepeatedIff` | task_5/homework/src/handler.c:43-47 | a read is repeated if and only if it gave nothing, bytes are missing and it was not the 99th of all |
| `SignalTransferEndings.ChildLeaves` | task_5/homework/src/main.c:132-141 | a child that tests after a reported success leaves with code 1, and with the whole file if and only if nothing was lost |
| `SignalTransferEndings.EndsIffAwake` | task_5/homework/src/main.c:132-150 | after any failure-free run both processes can still end, with the file copied, if and only if the child is not asleep behind its last block |
| `SignalTransferEndings.EveryCopyCanEnd` | task_5/homework/src/main.c:122-150 | for every file a failure-free run after which both processes have ended |
| `SignalTransferEndings.EveryCopyCanHang` | task_5/homework/src/main.c:132-134 | for every file a failure-free run after which neither can end |
| `SignalTransferEndings.MaximalRunsEndIff` | task_5/homework/src/main.c:132-150 | a failure-free run that cannot go on has ended both processes if and only if the child tested its condition after the end was stored |
| `SignalHandlers.SlotsAreDisjoint` | task_5/homework/src/main.c:200-204 | storing inside the bytes of one slot changes that slot and no other |
| `SignalHandlers.SharedData.constructor` | task_5/homework/src/main.c:189-204 | the initial fields and slot layout are an initial state of the step machine |
| `SignalHandlers.SharedData.TryRead` | task_5/homework/src/handler.c:43-47 | one round of the read loop is the read step, and it repeats exactly when the loop condition holds |
| `SignalHandlers.SharedData.PublishChunk` | task_5/homework/src/handler.c:49-59 | storing the size, counting and announcing is the publish step |
| `SignalHandlers.SharedData.ProducerHandler` | task_5/homework/src/handler.c:28-73 | a whole call of the handler is a run of producer steps of the step machine |
| `SignalHandlers.SharedData.ConsumerHandler` | task_5/homework/src/handler.c:75-117 | a whole call of the handler is a run of consumer steps of the step machine, writes of 0 bytes included |
| `SignalHandlers.SharedData.WriteBlock` | task_5/homework/src/handler.c:93-106 | the write loop, which ends with the whole block or at the first failing write |
| `Seeding.SeedProducer` | task_5/homework/src/main.c:122-130 | the seeding loop with handlers of both processes running in between and any sigqueue failing is a run of the step machine; it sends all eight numbers or exits with 1 |
| `ProducerConsumerTheorems.NoLostWakeup` | sem_4/examples/producer-cons.c:36-109 | while the mutex is free and the program runs, a sleeping consumer means buffer <= woken consumers, a sleeping producer means buffer + woken producers >= size; bounds and conservation |
| `ProducerConsumerTheorems.MutualExclusion` | sem_4/examples/producer-cons.c:41-64 | at most one thread is between lock and unlock |
| `ProducerConsumerTheorems.NeverAllAsleep` | sem_4/examples/producer-cons.c:45-48 | the unfinished producers and all consumers are never asleep together, also with spurious wakeups |
| `ProducerConsumerTheorems.RunsAreFinite` | sem_4/examples/producer-cons.c:36-163 | without spurious wakeups every run is bounded by a weight of its first state |
| `ProducerConsumerTheorems.NextEvent` | sem_4/examples/producer-cons.c:36-163 | until everything is produced and consumed some thread can step without a spurious wakeup |
| `ProducerConsumerTheorems.MaximalRunsConsumeEverything` | sem_4/examples/producer-cons.c:139-149 | a run that cannot go on has consumed K * MAX_ITEMS_PER_PRODUCER items |
| `ProducerConsumerTheorems.MainDoneMeansAllConsumed` | sem_4/examples/producer-cons.c:139-159 | when main is past the last join the buffer is empty and consumed = produced = K * MAX_ITEMS_PER_PRODUCER |
| `ProducerConsumerTheorems.ProducersNeverSeeTheStop` | sem_4/examples/producer-cons.c:36-72 | no unfinished producer ever finds the program stopped, so it always makes its full number of items |
| `ProducerConsumerEndings.CanEndIff` | sem_4/examples/producer-cons.c:74-163 | after any run main can still pass its last join without spurious wakeups if and only if there are no more sleeping consumers than signals to come |
| `ProducerConsumerEndings.EveryProgramCanEnd` | sem_4/examples/producer-cons.c:36-163 | every program has a run that ends, with every item consumed |
| `ProducerConsumerEndings.EveryProgramCanHang` | sem_4/examples/producer-cons.c:139-159 | every program has a run after which it never ends without a spurious wakeup |
| `Monitor.SharedBuffer.ProducerSection` | sem_4/examples/producer-cons.c:42-64 | the producer's critical section, up to unlock or wait, is a run of its steps |
| `Monitor.SharedBuffer.ConsumerSection` | sem_4/examples/producer-cons.c:81-100 | the consumer's critical section, up to unlock or wait, is a run of its steps |
| `CopySpec.CopyRun` | sem_3/homework/src/fifo_main.c:55-68 | a run of the specification "append the next unread bytes" keeps the output a prefix of the input |
| `ShmTransfer.OneBaton` | sem_3/homework/src/shm_main.c:64-133 | at most one baton, exactly one before the end; the processes are never in the buffer together |
| `ShmTransfer.RefinesCopy` | sem_3/homework/src/shm_main.c:75-86 | every step, whatever fails, is a step of the copy specification |
| `ShmTransfer.CompleteAtEof` | sem_3/homework/src/shm_main.c:119-127 | once the parent has read the end of the input the output is complete, so flag or removed semaphores make no difference |
| `ShmTransfer.EndMarkMeansSuccess` | sem_3/homework/src/shm_main.c:70-73 | a child that has seen the end mark exits with 0 and the whole output even if its last signal fails |
| `ShmTransfer.RunsAreFinite` | sem_3/homework/src/shm_main.c:64-146 | failure-free runs are no longer than 30 steps a byte and 41 |
| `ShmTransfer.NextEvent` | sem_3/homework/src/shm_main.c:64-146 | before both have ended some process can always step |
| `ShmTransfer.MaximalRunsDeliver` | sem_3/homework/src/shm_main.c:64-146 | a failure-free run that cannot go on has copied the file |
| `ShmEndings.HowTheyEnd` | sem_3/homework/src/shm_main.c:64-146 | in every run: when the parent is out of its loop, when it has ended, and when the child has exited with 0 or 1, each if and only if certain events have happened in order |
| `ShmEndings.SemaphoresAdd` | sem_3/homework/src/shm_main.c:64-133 | the semaphores are what the operations have left of 1 and 0, the signal behind a failed read included |
| `ShmEndings.EndsWellIff` | sem_3/homework/src/shm_main.c:64-146 | after any failure-free run both can still end with exit code 0 and the file copied if and only if the child has not failed and does not wait for removed semaphores |
| `ShmEndings.EveryCopyCanEndWell` | sem_3/homework/src/shm_main.c:64-146 | every file has such a run |
| `ShmLoops.Segment.ParentTurn` | sem_3/homework/src/shm_main.c:102-133 | a turn of the parent's loop, its sem_wait failing or not, on the shared buffer in place, is a run of its steps, and it goes on exactly when the loop does |
| `ShmLoops.Segment.WriteOut` | sem_3/homework/src/shm_main.c:75-86 | the partial-write loop is a run of write steps to the end of the block or to exit code 1 |
| `ShmLoops.Segment.ChildTurn` | sem_3/homework/src/shm_main.c:64-92 | a turn of the child's loop, its sem_wait failing or not, is a run of its steps; the exit code is the source's |
| `MqTransfer.RefinesCopy` | sem_3/homework/src/mq_main.c:81-103 | every step is a step of the copy specification; the end message is never written out |
| `MqTransfer.EofMessageEndsLoop` | sem_3/homework/src/mq_main.c:89-91 | receiving the end message always ends the loop |
| `MqTransfer.CompleteIffEndedByEof` | sem_3/homework/src/mq_main.c:89-103 | when all sends succeeded and the loop ended normally, the output is complete if and only if the end message ended it |
| `MqTransfer.NoLookalikeMeansComplete` | sem_3/homework/src/mq_main.c:81-103 | if no block laid over the receive buffer begins with "EOF", the loop ends with output = input |
| `MqTruncation.TruncationIsDangerous` | sem_3/homework/src/mq_main.c:89-103 | a failure-free run that ends early has a lookalike with at most as many blocks behind it as the queue holds |
| `MqTruncation.DangerousTruncates` | sem_3/homework/src/mq_main.c:81-129 | for every such block there is a failure-free run that ends early |
| `MqTruncation.BlocksTruncateIff` | sem_3/homework/src/mq_main.c:81-129 | for blocks and a queue of any positive capacity: some failure-free run over them ends early if and only if one of them is such a block |
| `MqTruncation.FileTruncatesIff` | sem_3/homework/src/mq_main.c:81-129 | the same for a file and all ways of reading it in blocks |
| `MqTruncation.EofFileIsTruncated` | sem_3/homework/src/mq_main.c:89-91 | the file "EOF" can be lost, whatever the capacity |
| `MqEndings.RunsAreFinite` | sem_3/homework/src/mq_main.c:81-129 | failure-free runs are no longer than 8 steps a byte and 8 |
| `MqEndings.MaximalRunsEnd` | sem_3/homework/src/mq_main.c:81-129 | a failure-free run that cannot go on has ended the receiver with 0, complete if and only if the end message ended it; the sender has ended too, or is stuck before a full queue |
| `MqEndings.SafeFilesAreCopied` | sem_3/homework/src/mq_main.c:81-129 | a file without a dangerous block is copied by every run that goes on for as long as it can |
| `MqEndings.SenderCanGetStuck` | sem_3/homework/src/mq_main.c:122-126 | with exactly as many blocks behind the lookalike as the queue holds, some run leaves the sender stuck |
| `MqEndings.HowTheyEnd` | sem_3/homework/src/mq_main.c:81-129 | in every run: flag, failure and end of the sender and exit code 1 of the receiver, each if and only if certain calls were made; code 0 only after the flag was set |
| `FifoTransfer.RefinesCopy` | sem_3/homework/src/fifo_main.c:53-100 | every step is a step of the copy specification |
| `FifoTransfer.EndOfStreamMeansAllPassed` | sem_3/homework/src/fifo_main.c:55-73 | a child that ends at end of file has written exactly what the parent passed on |
| `FifoTransfer.HowTheyEnd` | sem_3/homework/src/fifo_main.c:53-112 | in every run: the end of the parent and the exit code of the child, each if and only if certain calls gave nothing; a failed read gives code 0 |
| `FifoTransfer.RunsAreFinite` | sem_3/homework/src/fifo_main.c:53-112 | failure-free runs are no longer than 8 steps a byte and 2 |
| `FifoTransfer.MaximalRunsDeliver` | sem_3/homework/src/fifo_main.c:53-112 | a failure-free run that cannot go on has copied the file, for every pipe capacity |
| `CopyLoops.OutputFile.WriteAll` | sem_3/homework/src/fifo_main.c:57-67 | the partial-write loop writes all of the block, or stops after a prefix of it at the first result that is not positive |
| `CopyLoops.CopyLoop` | sem_3/homework/src/fifo_main.c:86-108 | the nested loops copy the whole input, or stop at the first read or write that fails with exactly what was written before it |
| `CopyLoops.SendLoop` | sem_3/homework/src/mq_main.c:111-129 | the sender queues a prefix of the input in blocks, stopping only at a block that is not accepted, and then the end message; code 1 if and only if a read failed |
| `CopyLoops.ReceiveLoop` | sem_3/homework/src/mq_main.c:81-107 | the receiver exits with 0 at the first flagged message over which the buffer begins with "EOF", with exactly the earlier messages written; with 1 only at a call that failed, with exactly what was written before it; otherwise it waits |
| `CommandLineSpec.Tokens` | sem_1/homework/src/command_parser.c:79-83 | the pieces strtok_r yields are non-empty and free of separators |
| `CommandLineSpec.AcceptedWithinLimits` | sem_1/homework/src/command_parser.c:56-63 | whatever the input, an accepted line has at most 16 commands of at most 255 arguments |
| `CommandLineSpec.RoundTrip` | sem_1/homework/src/command_parser.c:65-147 | printing 1 to 16 commands of 1 to 255 words and parsing gives the same commands |
| `CommandShape.CommandCount` | sem_1/homework/src/command_parser.c:103-143 | an accepted line has a command for each token with a pipe, and one more if and only if something follows the last separating pipe |
| `CommandShape.NoCommandIff` | sem_1/homework/src/command_parser.c:141-143 | no command at all exactly for a line without tokens |
| `CommandShape.CommandIsEmptyIff` | sem_1/homework/src/command_parser.c:103-133 | a command is empty if and only if the token that ends it begins with its pipe and follows nothing or another pipe |
| `CommandShape.EmptyCommandIff` | sem_1/homework/src/command_parser.c:103-143 | an accepted line has an empty command if and only if it has such a token |
| `CommandShape.LastCommandIsEmptyIff` | sem_1/homework/src/command_parser.c:141-143 | the last command is empty only if the line ends in such a token |
| `CommandShape.LonePipe` | sem_1/homework/src/command_parser.c:84-88 | a pipe alone gives one empty command, an empty line none |
| `CommandShape.BlanksAreAlike` | sem_1/homework/src/command_parser.c:79-83 | blanks, tabs and newlines separate words alike |
| `GluedPipes.GluedEqualsSpaced` | sem_1/homework/src/command_parser.c:103-133 | with at most one pipe a token, same commands or same error as with every pipe spaced out |
| `GluedPipes.GluedIffClean` | sem_1/homework/src/command_parser.c:103-133 | for accepted lines that holds if and only if no token has a second pipe or odd white space behind its pipe |
| `GluedPipes.SecondPipeIsKept` | sem_1/homework/src/command_parser.c:124-130 | in a token with two pipes only the first separates: what follows it, second pipe included, is one argument |
| `GluedLimits.SpacingAndErrors` | sem_1/homework/src/command_parser.c:56-63 | spacing out the pipes never brings up TOO_MANY_ARGS and never removes TOO_MANY_COMMANDS |
| `GluedLimits.GluedIff` | sem_1/homework/src/command_parser.c:65-147 | for every line: same commands or same error if and only if it is accepted with clean tokens only, has too many commands, or has more than 255 words between two of its first 16 pipes |
| `GluedLimits.GluedTooLong` | sem_1/homework/src/command_parser.c:124-130 | a token of two words, each with a pipe glued behind it, before 255 words: the line is rejected, and accepted as three commands when spaced |
| `CommandParser.StrtokR` | sem_1/homework/src/command_parser.c:79-83 | the next token in place: found text, NUL over its separator, where the search goes on |
| `CommandParser.Command.AddArgument` | sem_1/homework/src/command_parser.c:56-63 | appends below 255 arguments, otherwise refuses and changes nothing; argv stays NULL-terminated |
| `CommandParser.CommandLine.TakePieces` | sem_1/homework/src/command_parser.c:103-133 | the branch for a token with a pipe, including both limits |
| `CommandParser.CommandLine.TakeToken` | sem_1/homework/src/command_parser.c:84-138 | the loop body does what the specification does with a token |
| `CommandParser.ParseCommandLine` | sem_1/homework/src/command_parser.c:65-147 | the in-place parser gives the commands or the error of the specification; every counted command has its own argv ending in NULL |
| `Pipeline.InvRun` | sem_1/homework/src/run_cmd.c:10-50 | the descriptor table of every process at every point of every interleaving |
| `PipelineTheorems.ConnectedIffStandard` | sem_1/homework/src/run_cmd.c:14-50 | when all commands run, the only holders of pipe i are command i at descriptor 1 and command i + 1 at descriptor 0, for every i, if and only if descriptors 0 and 1 were open at the start |
| `PipelineTheorems.EndOfFileIffWriterExited` | sem_1/homework/src/run_cmd.c:31-48 | in every interleaving, past command i nobody holds the write end of pipe i if and only if command i has exited |
| `PipelineTheorems.ReaderIsThere` | sem_1/homework/src/run_cmd.c:26-48 | pipe i has a reader until command i + 1 exits or the shell gives up |
| `PipelineTheorems.ShellDescriptors` | sem_1/homework/src/run_cmd.c:41-48 | the shell is never more than three descriptors above its baseline and ends with the two ends of the last pipe |
| `PipelineTheorems.CommandDescriptors` | sem_1/homework/src/run_cmd.c:26-37 | no command starts with a stray descriptor but the last, which has both ends of its own pipe |
| `PipelineTheorems.FailedForkLeaks` | sem_1/homework/src/run_cmd.c:14-24 | a failed fork leaves the shell with two or three descriptors more, a failed pipe ends it; commands already started are left alone |
| `PipelineTheorems.DupNeverFails` | sem_1/homework/src/run_cmd.c:26-37 | what dup2 copies is always open |
| `RunCmdLoop.RunChild` | sem_1/homework/src/run_cmd.c:25-39 | the child's branch is a run of that child's steps |
| `RunCmdLoop.RunCmd` | sem_1/homework/src/run_cmd.c:7-50 | the loop, with any call failing, leaves the tables of a run of the step machine; with none failing all commands run |
| `CText.ValueOfDecimal` | task_7/homework/src/server/server.c:120-121 | a printed number has that value |
| `CText.SizeBack` | task_7/homework/src/client/client.c:190-194 | %zu reads a printed size back and stops behind it |
| `CText.SignedSize` | task_7/homework/src/client/client.c:190-194 | %zu of a number with white space and a sign: negated modulo 2^64, or the largest size |
| `Framing.HeaderRoundTrip` | task_7/homework/src/server/server.c:120-127 | the header of every file length fits its buffer and is read back as that length |
| `Framing.FrameFirst` | task_7/homework/src/client/client.c:160-234 | a frame at the front of a stream is recognised whole, whatever follows |
| `Framing.FramesRecovered` | task_7/homework/src/client/client.c:148-237 | of any files sent one after the other, the k-th call recovers file k and stops at frame k + 1 |
| `Framing.HeaderLimit` | task_7/homework/src/client/client.c:160-188 | a first line is accepted as a header only up to 62 characters |
| `FileTransfer.DeliveredIff` | task_7/homework/src/server/server.c:119-168 | for every result of every read and write: the FIFO gets the whole frame if and only if the transfer is logged as completed and the header was not cut short |
| `FileTransfer.ShortHeaderGoesUnnoticed` | task_7/homework/src/server/server.c:129-135 | for every file, a run that is logged as completed and delivers "S" and the body |
| `FileTransfer.BodyCounts` | task_7/homework/src/server/server.c:138-160 | the count is that of the bytes taken, and is the size only when all of the file is written in order |
| `FileTransfer.CompletedMeansUndisturbed` | task_7/homework/src/server/server.c:138-168 | a transfer logged as completed met no stop, no failed read and no short write at any block |
| `FileTransfer.NothingIsSent` | task_7/homework/src/server/server.c:129-138 | a header that cannot be written, or a stopped server: no body and no completion |
| `FileTransfer.SendFile` | task_7/homework/src/server/server.c:105-173 | what is written and logged is what that function of the calls' results says |
| `FileTransfer.SendBody` | task_7/homework/src/server/server.c:138-160 | the loop over the file, with its early ends |
| `FileTransfer.ReadHeader` | task_7/homework/src/client/client.c:160-188 | byte-wise, interrupted reads included, finds the first line if it is short enough |
| `FileTransfer.ReceiveFile` | task_7/homework/src/client/client.c:148-237 | unless a read fails, succeeds if and only if the stream begins with a whole frame, and stops at its end, for any sizes of the reads |
| `FileTransfer.ReceiveFiles` | task_7/homework/src/client/client.c:148-237 | of k files sent one after the other, calls of receive_file report all k sizes and stop behind the last frame, unless a read fails |
| `ClientTable.InvRun` | task_7/homework/src/server/server.c:37-77 | after any sequence of registrations, closes and commands each active slot owns its two descriptors and its epoll entry, free slots own nothing |
| `ClientTable.DescriptorCount` | task_7/homework/src/server/server.c:244-325 | the server's descriptors are its own and exactly two a client |
| `ClientTable.FailedRegistration` | task_7/homework/src/server/server.c:244-298 | registration fails exactly in the listed cases, and then table, descriptors and epoll set are as before |
| `ClientTable.CommandsClose` | task_7/homework/src/server/server.c:175-200 | a buffer of commands closes the client if and only if one of its lines asks for it |
| `ClientSession.SuccessfulRegistration` | task_7/homework/src/server/server.c:244-325 | when registration returns 0 the first free slot holds the client, its descriptors in their roles, its paths and its epoll tag, and nothing else has changed; everything is as before if a waiting line asks to leave |
| `ClientSession.StaysRegistered` | task_7/homework/src/server/server.c:37-77 | in every run a client keeps its slot, its open descriptors and its epoll entry until it is closed or asks to leave |
| `ClientSession.LinesBack` | task_7/homework/src/server/server.c:306-319 | however many commands one read returns, with or without the last newline, they are found one by one |
| `ClientSession.GoodbyeCloses` | task_7/homework/src/client/main_client.c:124-128 | what the client sends at its end frees its slot, with whatever requests came before |
| `ClientSession.RequestIsUnderstoodIff` | task_7/homework/src/server/server.c:203-209 | the server looks for the file the client asked for if and only if its name is not empty, has no white space and at most 255 characters |
| `ServerTable.ServerState.FindFreeClientSlot` | task_7/homework/src/server/server.c:37-44 | the first free slot, or -1 |
| `ServerTable.ServerState.CloseClientConnection` | task_7/homework/src/server/server.c:46-77 | in place, what the table model does on close |
| `ServerTable.ServerState.ProcessBuffer` | task_7/homework/src/server/server.c:300-319 | the loop over the lines of a buffer handles every non-empty line in order |
| `ServerTable.ServerState.RegisterNewClient` | task_7/homework/src/server/server.c:244-325 | in place, what the table model does on registration, every failure path included |
| `ServerTable.ServerState.CloseAll` | task_7/homework/src/server/main_server.c:193-197 | after the shutdown loop exactly the server's own descriptors and epoll entries are left |
| `MetadataFilter.StripIsIdentityIffClean` | task_6/homework/src/backup.c:494-507 | the filter changes a text exactly when some fgets piece of it looks like metadata |
| `MetadataFilter.StripUndoesMetadata` | task_6/homework/src/backup.c:85-95 | the saved diff is recovered if and only if no piece of it looks like metadata |
| `MetadataFilter.LongLinesAreBroken` | task_6/homework/src/backup.c:494-507 | what follows the first 4095 characters of a line is filtered as a line of its own |
| `MetadataFilter.SaveDiff` | task_6/homework/src/backup.c:85-95 | metadata, then the diff unchanged |
| `MetadataFilter.StripMetadata` | task_6/homework/src/backup.c:494-507 | the filtering loop computes that filter |
| `LineDiffProofs.PatchUndoesDiff` | task_6/homework/src/backup.c:512-517 | for every script of any number of hunks that describes the two files, patching with its text gives the second |
| `LineDiffProofs.ScriptExists` | task_6/homework/src/backup.c:69-72 | any two files have such a script |
| `LineDiffProofs.UnifiedFormat` | task_6/homework/src/backup.c:69-72 | the lines, ranges and labels of a unified diff, as text |
| `DiffFilter.RestoreIffNoDashes` | task_6/homework/src/backup.c:492-523 | for every such script: through the metadata filter this still holds if and only if no line "--" is removed; otherwise the patch fails |
| `DiffFilter.NoDashesIffClean` | task_6/homework/src/backup.c:500-503 | that condition is the guard of the filter: no piece of the printed diff looks like metadata |
| `DiffFilter.CleanDiffRestores` | task_6/homework/src/backup.c:492-523 | a diff the filter leaves alone restores the file, however long its lines |
| `DiffFilter.RemovedDashesAreLost` | task_6/homework/src/backup.c:500-503 | a file whose only line is "--", emptied, cannot be restored |
| `DiffFilter.ScriptsDiffer` | task_6/homework/src/backup.c:500-503 | a line moved in front of a line "--": of two scripts for the same files, one can be restored and one cannot |
| `BackupHistory.DiffPathsDiffer` | task_6/homework/src/backup.c:375-376 | different names or samples have different diff files |
| `BackupTheorems.HistoryIsFixed` | task_6/homework/src/backup.c:357-384 | base copies and the diffs of past samples never change in any continuation of a run |
| `FirstBackup.FirstBackupIsComplete` | task_6/homework/src/backup.c:103-184 | in every run and continuation each name has the base copy that the last listed file of that name had at the start, and just after the start no other name has one |
| `FirstBackup.LaterFilesGetBases` | task_6/homework/src/backup.c:355-372 | a file that comes later is copied whole in its first sample, and that stays its base |
| `FirstBackup.LogsAreNeverBackedUp` | task_6/homework/src/backup.c:128-137 | the daemon's own log leaves neither a base copy nor a diff in any run |
| `StoredDiffs.StoredDiffNamesItsFiles` | task_6/homework/src/backup.c:84-89 | in every continuation a stored diff says under its four titles when and in which sample it was made and which two files it compares |
| `StoredDiffs.RestoreNeedsTheSample` | task_6/homework/src/backup.c:434-437 | only a sample that was taken can be restored |
| `BackupTheorems.RestoreGivesTheSample` | task_6/homework/src/backup.c:428-533 | after any continuation, what restoring the last file of a name in a sample gives: the content it had; the base copy if the diff command was cut; a failure if its diff has a line "---" or a file of restore does not open |
| `BackupTheorems.UnstoredSampleGivesBase` | task_6/homework/src/backup.c:483-531 | a sample whose diff could not be stored is restored as the base copy, with success |
| `BackupTheorems.WhenTheCommandIsCut` | task_6/homework/src/backup.c:63-72 | for which lengths of the two paths the diff command still compares them |
| `BackupTheorems.LongPathsRestoreTheBase` | task_6/homework/src/backup.c:63-72 | beyond 2034 characters of both paths the outcome is the base copy |
| `BackupTheorems.PatchCommandFits` | task_6/homework/src/backup.c:512-515 | a patch command for files that can be opened is never cut |
| `BackupTheorems.LongNamesAreNeverRestored` | task_6/homework/src/backup.c:357-376 | in every run, a file whose name does not fit a directory entry cannot be restored |
| `BackupTheorems.NamesCollideIff` | task_6/homework/src/backup.c:23-56 | two files of a directory share their copies if and only if their paths differ only in "/" against "_" |
| `BackupTheorems.OtherNames` | task_6/homework/src/backup.c:22-56 | the name of the directory itself and of paths outside it |
| `BackupTheorems.CollisionRestoresTheOther` | task_6/homework/src/backup.c:357-384 | when both change in a sample, restoring the first gives what the second held |
| `RestoredFiles.RestoredFilesAreApart` | task_6/homework/src/backup.c:542-558 | restored files of different samples have different paths, none of them the original's, with its extension, and the daemon does not follow them |
| `BackupStore.Store.CreateFullBackup` | task_6/homework/src/backup.c:103-184 | the first copy, as the model's first step |
| `BackupStore.Store.CreateIncrementalBackup` | task_6/homework/src/backup.c:334-387 | the loop over the changed files, as the model's sample |
| `BackupStore.Store.SaveDiffOf` | task_6/homework/src/backup.c:58-101 | saving a diff, as the model does, with a command that may be cut or not start and a file that may not open |
| `BackupStore.Store.ApplySavedDiff` | task_6/homework/src/backup.c:488-523 | filter, command and patch, with temporary files that may not open |
| `BackupStore.Store.RestoreFileToSample` | task_6/homework/src/backup.c:428-533 | every branch of restore, with the model's result |
| `ChangeQueue.FirstOccurrencesMeaning` | task_6/homework/src/daemon.c:356-376 | no repetition, same elements, order of first appearance |
| `ChangeQueue.QueueIsFirstOccurrences` | task_6/homework/src/daemon.c:276-383 | the queue is always the first occurrences of the followed paths since it was emptied |
| `ChangeQueue.KindsFollowed` | task_6/homework/src/daemon.c:315-354 | of the twelve kinds of events exactly six are followed, four of them only for text; of a directory none |
| `ChangeQueue.ChangeIsQueuedIff` | task_6/homework/src/daemon.c:281-380 | after an event a path is queued if and only if it was before or the event is followed, whatever the padding of its name |
| `ChangeQueue.NewDirectoryIsWatched` | task_6/homework/src/daemon.c:297-308 | a new directory is watched from then on, and the watches before it stay what they were |
| `ChangeQueue.RecordBack` | task_6/homework/src/daemon.c:278-283 | a variable-length record is read back, whatever follows it |
| `ChangeQueue.MonitorState.ProcessEvent` | task_6/homework/src/daemon.c:281-380 | every branch for one event |
| `ChangeQueue.MonitorState.ProcessInotifyEvents` | task_6/homework/src/daemon.c:276-383 | the walk over a buffer visits every record once, in order |
| `ChangeQueue.MonitorState.Drain` | task_6/homework/src/backup.c:186-221 | the whole queue is handed over and emptied |
| `StatScan.ScanReports` | task_6/homework/src/backup.c:236-295 | a file is reported if and only if it is there and new or different |
| `StatScan.ScanReportsOnce` | task_6/homework/src/backup.c:236-295 | no file is reported twice |
| `StatScan.SecondScanFindsNothing` | task_6/homework/src/backup.c:262-265 | a second scan of an unchanged tree reports nothing and changes nothing |
| `StatScan.KnownFiles.FindChangedFiles` | task_6/homework/src/backup.c:229-303 | the nested loops compute that scan |
| `TaskFormat.PrintedIsNear` | task_8/homework/utils/src/serializer.c:11-12 | printing is exact on multiples of 1e-15, otherwise within half a unit |
| `TaskFormat.RealBack` | task_8/homework/utils/src/serializer.c:28-32 | a printed real is read back as the printed value |
| `TaskFormat.TaskRoundTrip` | task_8/homework/utils/src/serializer.c:7-39 | a task that fits its buffer arrives with its bounds as printed and its count exactly |
| `TaskFormat.ResultRoundTrip` | task_8/homework/utils/src/serializer.c:41-70 | the same for a result |
| `TaskFormat.TasksAlwaysFit` | task_8/homework/utils/src/serializer.c:11-16 | a task of doubles always fits its buffer; a text as long as the buffer does not |
| `DistributedIntegral.StripsTile` | task_8/homework/client/src/client.c:160-187 | the strips meet edge to edge from x_min to x_max and are equally wide |
| `DistributedIntegral.SharesAddUp` | task_8/homework/client/src/client.c:165-189 | the points add up to the request and differ by at most one |
| `DistributedIntegral.NoEmptyStripIff` | task_8/homework/server/src/tcp_server.c:60 | no server divides by zero if and only if there are at least as many points as strips |
| `DistributedIntegral.Serve` | task_8/homework/server/src/tcp_server.c:47-66 | the sampling loop counts the points under the curve and scales the area; NaN exactly for a task without points |
| `IntegralTheorems.SamplesAreUniform` | task_8/homework/server/src/tcp_server.c:51-54 | points lie in the rectangle, and cover each part of it by as large a share as the draws |
| `IntegralTheorems.EveryPointIsDrawn` | task_8/homework/server/src/tcp_server.c:51-54 | every point of the rectangle can be drawn |
| `DistributedIntegral.ComputeIntegralDistributed` | task_8/homework/client/src/client.c:151-239 | the two loops sum the answers of the strips, failed servers counting nothing, NaN handed on |
| `IntegralTheorems.SumIsNumberIff` | task_8/homework/client/src/client.c:212-231 | the sum is a number if and only if no strip without points is answered |
| `IntegralTheorems.ResultWithinArea` | task_8/homework/client/src/client.c:212-231 | on exact values: with enough points the sum is between 0 and the area, whichever servers fail |
| `IntegralTheorems.EvenSplitIsPooled` | task_8/homework/client/src/client.c:212-231 | on exact values: an even split that all answer equals the estimate of one server from the pooled sample |
| `IntegralText.PrintedTasksTile` | task_8/homework/client/src/client.c:171-187 | rounded as text, the strips still meet edge to edge and fill the rounded range |
| `IntegralText.RemoteSumIsNumberIff` | task_8/homework/client/src/client.c:212-231 | over the text, with all answering: a number if and only if there are at least as many points as strips |
| `IntegralText.RemoteResultWithinArea` | task_8/homework/client/src/client.c:212-231 | over the text: between 0 and the area of the rounded range and half a unit of 1e-15 for each strip |
| `IntegralText.TextCost` | task_8/homework/client/src/client.c:212-231 | whatever fails, sending tasks and results as text moves the sum by at most n times a unit times width, height and a half |
| `IntegralText.EvenSplitIsNearlyPooled` | task_8/homework/client/src/client.c:212-231 | over the text: an even split that all answer is that near to the estimate from the pooled sample |

## Left out

Of the programs that are modelled:

- `task_5`: `sh_data->pid` is taken to be stored before the first producer step; SIG_EXIT has no sender in
  the program and is no event; a write that returns 0 is repeated as in the source, so the methods take
  the results of the calls as parameters, a call of a handler ends only if the writes stop returning 0,
  and progress is claimed only for writes that take something.
- `task_5`: the methods for the handlers run without being interrupted, the seeding loop with whole handlers
  between two numbers; finer interleavings are those of the step machine, whose theorems hold for all.
- `task_5`: the counter `attempts` is unbounded here, a 32-bit integer there.
- `sem_4`: SIGINT and its broadcast, which changes `running` and wakes sleepers; `sleep` times.
- `sem_4`: `cond_signal` wakes one sleeping thread; spurious wakeups are events of their own.
- `sem_3`: the message queue is bounded by a number of messages, not of bytes; creation and removal of the
  FIFO and of the queue.
- `sem_1`: allocation failures in the parser (ALLOC_ERR), freeing, printing, reading the line, characters
  above 127 in `isspace`.
- GluedPipes.GluedIffClean: for accepted lines only; `GluedLimits.GluedIff` states the condition for all.
- `sem_1`: what a command does with its descriptors after execvp, other than exit; `waitpid` and its report.
- `task_7`: threads that outlive a closed client and use its descriptor; epoll dispatch, whose tag 0 is
  shared by the server FIFO and client 0; opening FIFOs, registration of a client on the client side.
- `task_7`: `close` and EPOLL_CTL_DEL are taken to succeed, `open` to return a descriptor that was not open;
  the file does not change while it is sent.
- `task_6`: `diff` and `patch` are external programs.  Which script diff prints is left open: any hunks that
  describe the two files.  `patch` applies hunks where their headers say, by the counts in them; it does not
  look for a place nearby, ignore context or reverse a script.
- `task_6`: `DiffFilter.RestoreIffNoDashes` is stated for lines of up to 4093 characters, because longer ones
  reach the filter in pieces; `CleanDiffRestores` has no such limit, and its condition is the filter's guard.
- `task_6`: paths with a newline, a double quote, a dollar sign, a backquote or a backslash: what their
  command line does is a parameter, about which nothing is claimed.
- `task_6`: a file that changes between its copy and its diff, NUL bytes in texts, a full disk, a saved file
  that cannot be opened for reading; a deleted file, whose diff is
  empty; `set_pid`; the recursive search of directories and what adding a watch for a new directory finds,
  which is a parameter.
- `task_8`: floating-point rounding other than to 15 digits in the texts, threads, the discovery of servers,
  random draws, which are a parameter; infinities; NaN in an answer is handed on without its text.
- IntegralTheorems.ResultWithinArea: on exact values; `IntegralText.RemoteResultWithinArea` includes the text.
- IntegralTheorems.EvenSplitIsPooled: on exact values; `IntegralText.EvenSplitIsNearlyPooled` bounds what the
  text adds.
- ScanReal: no exponents, hexadecimal digits, infinities or NaN, which %lf also reads.
- CommandLine.Next: after TOO_MANY_COMMANDS nothing is said about the line, which the caller drops.

Not modelled at all: `sem_2`, where parent and child use the ends they have closed; `task_8` option parsing,
which holds unresolved merge markers; loggers, timing, CPU pinning, plotting and shell
scripts, the other seminar examples and the lecture notes.
