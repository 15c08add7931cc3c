# Verified models of the network programming assignments

Dafny models of the parts of this repository with the most intricate behaviour, and proofs about them. Each
module follows one program or one of its components; `dafny verify dfyconfig.toml` checks everything.

* **Prefork server** (`PreforkParent`, `PreforkProtocol`, `PreforkRuns`, `PreforkProgress`). The parent's
  reaction to a control message is given on values (`React`) and on the doubly linked worker list
  (`WorkerTable`), which refines it. `PreforkProtocol` is a transition system of parent, workers, the parent's
  mailbox and the acknowledgements; every theorem of `PreforkRuns` and `PreforkProgress` is about all its runs,
  under every configuration, whatever the scheduling. Assumptions: system calls succeed, datagrams arrive in the
  order in which they were sent, `fork` returns a pid that no live worker has. Handling one message is one step,
  since nobody else reads or writes what the parent touches meanwhile. Two properties that the design takes for
  granted depend on the configuration; both are settled exactly. The parent dereferences a null pointer in some
  run unless `minSpareServers >= 1`, or `maxSpareServers >= 1` and `maxRequestsPerChild <= 0`
  (`CrashFreeIffSafe`). The quota is kept in every run if and only if it is at least 1 (`QuotaKeptIffPositive`).
* **File-list flood** (`Flood`). The forwarding loop with its mixture of received copy and outgoing copy: the
  membership test and the slot to write come from the received copy, while the outgoing count grows with every
  forward, once per listed file. The claimed count can therefore exceed the 20 slots (`ClaimedCountOverflows`;
  `ForwardsOncePerFile` says exactly when), and the membership test then reads beyond the array. What it finds
  there is a parameter (`Overread`), so the theorems hold whatever it is. A flood runs over a network that may
  be a different one at every step, since nodes join and leave meanwhile; all that is fixed are bounds on how
  many nodes a group has and how many groups a node has (`Limits`).
* **Shell pipelines** (`ShellPipeline`, `ShellParser`). Programs are functions on byte sequences, pipes are
  unbounded, and commands run one after the other, as the parent waits for each. A `Stage` is one command or a
  group of two or three; `Meaning` is the tree reading, `RunFrom` the flat list over the pipe array. Every
  pipeline, even a single command, fetches `pipe_fd[count - 1][1]` in its last round, by the parent and by the
  child (shell.c:478), and `pipe_fd[-1][0]` in its first child (shell.c:485), all outside the array. What lies
  there is a parameter (`Outside`); `WireUp` shows that a child never uses it, and the parent does nothing with
  what it fetched. A first stage that is a group fetches and uses more: every used descriptor is inside the
  array if and only if the first stage is a single command (`UsedInBoundsIffSingleFirst`,
  `ThreeFetchesOutside`). A line of more than two characters that starts with `sc` is a shortcut command and
  runs no pipeline (shell.c:181-254); the model recognises such lines (`Shortcut`) and goes no further. The
  model follows the code where the comments promise that a trailing `&` runs a line in the background: it is
  dropped only when a blank or newline follows (shell.c:270-279).
* **RTT tool** (`RttScheduler`, `RttWork`, `RttTimeout`, `RttThreads`, `IcmpArithmetic`, `AddressDedup`,
  `StringHash`, `ChainedMaps`, `JobStack`). One sender, two receivers, a job stack (called a queue) and
  per-address counters. A section under the mutex is one step, except that a packet is on the wire before the
  sender pops its job. Fault model: packets are lost or delayed but not duplicated, local sends succeed, only
  echo replies arrive, and a reply is received no earlier than its request was sent. The checksum works on bytes
  in either byte order, with the 32-bit sum wrapping: the round trip holds all the same, while agreement with
  RFC 1071 and with the other byte order have their exact conditions (`Rfc1071Iff`, `ByteOrderIff`); times are
  whole microseconds.
* **Group commands** (`GroupCommands`, `GroupLines`, `Decimal`). The parser keeps `strtok`'s hidden cursor and
  its changing delimiters. `Undefined` stands for inputs on which the C code leaves its arrays, passes NULL to
  `strcmp`, reads before the line, or converts a number that does not fit an `int`. Texts contain no NUL. The
  length check of `request-file` admits a name of 20 characters that then overflows its array (utils.c:172-179),
  and negative ports are accepted; both are as in the code. `RoundTripIffPrintable` says exactly for which
  commands parsing undoes printing.
* **Chained hash maps** (`ChainedMaps`). One generic class for both versions: chains of nodes on the heap,
  refined to a finite map. In the int-keyed map of the shell, inserting a key that is there and deleting one
  that is not fail an assertion and end the program (assignment-1/q1/hash_map.c:149 and 201): `Replay` stops
  there, and `SurvivesIffAllowed` says which sequences survive. The string-keyed map of the RTT tool refuses
  duplicates, goes on, and has no deletion (`ReplayRefusing`). Keys hash into the table, as the non-negative
  command numbers of the shell do (`ShellMap`); data is not NULL. `capacity` is never decremented
  (assignment-1/q1/hash_map.c:187-188); the class keeps it as an upper bound of the chain length, which is all
  that the empty-bucket shortcut needs.
* **Chat** (`ChatRouting`, `ChatNames`, `ChatDelivery`, `ChatProgress`, `ChatServer`). Every `msgsnd` and
  `msgrcv` on the shared queues is a step of its own, so messages can also be in the hands of a sender, of a
  router of the server or of a router of a client. Every process that reads a chat starts a router and every
  process that writes is a sender, so each user has any number of both. Two routers of one user can change the
  order (`TwoRoutersReorder`); what is proved of the order between two users is for runs that empty the hands of
  these two in order, as all runs do in which one has one sender and the other one router. Assumptions: queue
  operations succeed, and clients register before they write. To whom a group message is fanned out is arbitrary
  in the runs, since `num_clients` is never initialised; `SendGroupMessage` says when the loop over a given
  group gets through. `ChatServer` holds the tables as arrays and the loop bodies as methods that refine the
  steps. `get_cid` and `get_gid` answer -1 for a name nobody has, their caller does not look (client.c:336-344),
  and the server uses NULL, or the entry before its table (taken as fatal too), when it routes such a message.
  In every run, whatever the interleaving, somebody has written to such a name if and only if the server has
  died of a failed lookup or still has such a message before it (`DoomedIffUnknownName`). Other causes of death,
  such as a fan-out that cannot walk its group, are outside the runs.

`Optional` is the type of results that can be missing.

## Model

| member | source | states |
|---|---|---|
| `PreforkParent.WorkerTable.GetWorkerById` | assignment-2/q2/prefork_server.c:72-82 | finds the first list node with the pid, NULL exactly when there is none |
| `PreforkParent.WorkerTable.AddWorker` | assignment-2/q2/prefork_server.c:108-129 | a new idle worker in front of the list, both counters up by one, next and prev still mutually inverse |
| `PreforkParent.WorkerTable.RemoveWorker` | assignment-2/q2/prefork_server.c:85-106 | on a list of at least two, exactly this worker goes and the links stay mutually inverse |
| `PreforkParent.WorkerTable.ExponentialSpawn` | assignment-2/q2/prefork_server.c:258-270 | terminates for every minimum, and forks exactly as many workers as the closed description says, newest first |
| `PreforkParent.WorkerTable.HandleControlMsg` | assignment-2/q2/prefork_server.c:274-315 | on the linked list, the handler has the effect and the reaction of its specification on values |
| `PreforkParent.StartupStopsAtFirstBatch` | assignment-2/q2/prefork_server.c:258-270 | running totals are 2^k - 1 up to 63, then grow by 32; startup ends at the first total that reaches the minimum |
| `PreforkParent.StartupWithinBand` | assignment-2/q2/prefork_server.c:258-270 | for a minimum of at least 1 the startup count is below twice the minimum and below the minimum plus 32 |
| `PreforkProtocol.StepKeeps` | assignment-2/q2/prefork_server.c:168-315 | every step that does not crash keeps counters, list, processes, pending messages and connections in step |
| `PreforkRuns.RunKeepsInv` | assignment-2/q2/prefork_server.c:168-380 | the same in every world of every run up to a crash |
| `PreforkRuns.IdleStaysInBand` | assignment-2/q2/prefork_server.c:258-298 | after startup the idle counter is never below the minimum nor above the larger of maximum and startup count |
| `PreforkRuns.StartupForksExactly` | assignment-2/q2/prefork_server.c:258-270 | startup ends in every run with the fork that completes a batch, with exactly the startup count of idle workers |
| `PreforkRuns.GotEffect` | assignment-2/q2/prefork_server.c:274-284 | in every run a GOT_REQUEST adds one fresh worker if and only if that leaves fewer idle workers than the minimum, and changes no other worker |
| `PreforkRuns.CompletionEffect` | assignment-2/q2/prefork_server.c:286-308 | in every run a COMPLETED_REQUEST removes its sender without replacement above the maximum, replaces it by a fresh worker at its quota, and otherwise acknowledges it alone; the parent crashes exactly if it has to remove its only worker |
| `PreforkRuns.KilledOnlyWhileBlocked` | assignment-2/q2/prefork_server.c:183-308 | a killed worker is waiting for its acknowledgement, holds no connection and leaves no message behind |
| `PreforkRuns.NoRequestLost` | assignment-2/q2/prefork_server.c:183-239 | an accepted connection is answered, or in the hands of exactly one live worker |
| `PreforkRuns.SenderAlwaysListed` | assignment-2/q2/prefork_server.c:274-286 | get_worker_by_id never returns NULL to the handler |
| `PreforkRuns.CrashFreeIffSafe` | assignment-2/q2/prefork_server.c:85-129 | the parent survives every run exactly under the safe configurations |
| `PreforkRuns.UnsafeConfigCrashes` | assignment-2/q2/prefork_server.c:286-302 | outside them a run is constructed in which the parent removes its only worker |
| `PreforkRuns.RunKeepsQuota` | assignment-2/q2/prefork_server.c:286-307 | a worker at its quota is reporting or waiting, never about to serve again |
| `PreforkRuns.QuotaKeptIffPositive` | assignment-2/q2/prefork_server.c:286-307 | no worker of any run exceeds the quota if and only if the quota is at least 1 |
| `PreforkRuns.CountersTrackProcesses` | assignment-2/q2/prefork_server.c:85-129 | num_workers is the number of processes; num_idle_workers is the free workers plus unread GOT_REQUESTs minus unread COMPLETED_REQUESTs |
| `PreforkRuns.DrainedPoolHasSpares` | assignment-2/q2/prefork_server.c:274-315 | with an empty mailbox after startup, at least the minimum of workers are really free |
| `PreforkProgress.AnsweredWithinTwo` | assignment-2/q2/prefork_server.c:183-239 | a held connection is answered by its holder's next two events at the latest, in every run, whatever the others do in between |
| `PreforkProgress.HolderAnswers` | assignment-2/q2/prefork_server.c:183-239 | every run in which a worker holds a connection goes on to the response by at most two events, all of them that worker's own |
| `PreforkProgress.BlockedIffUnread` | assignment-2/q2/prefork_server.c:183-239 | in every run a worker can go on if and only if its COMPLETED_REQUEST is not among the unread messages |
| `PreforkProgress.ParentMoves` | assignment-2/q2/prefork_server.c:258-315 | in every run the parent can fork exactly during startup and handle a message exactly when there is one after it, whatever free pid a fork returns |
| `PreforkProgress.NobodyStuck` | assignment-2/q2/prefork_server.c:168-315 | so no run gets stuck before a crash: the parent can go on, or every worker can |
| `Flood.HandleFileList` | assignment-2/q3/group_comm.c:435-488 | the nested loops send exactly the specified copies |
| `Flood.ForwardsExtend` | assignment-2/q3/group_comm.c:459-486 | a forwarded copy keeps the received record as a prefix, has its destination next, and a strictly larger count; none is forwarded at the limit |
| `Flood.ForwardsOncePerFile` | assignment-2/q3/group_comm.c:438-486 | each unrecorded group is sent to once per listed file, in order; some copy claims more groups than there are slots exactly when the product overshoots |
| `Flood.ForwardsAre` | assignment-2/q3/group_comm.c:435-488 | determines every copy: the k-th destination, the received copy in every slot but the one behind the received record, where the destination is, and a count that is k + 1 larger |
| `Flood.MulticastGoesTo` | assignment-2/q3/group_comm.c:435-488 | a copy sent to a group goes to nodes that have joined it, to each once |
| `Flood.MulticastReaches` | assignment-2/q3/group_comm.c:435-488 | and to every one of them |
| `Flood.ClaimedCountOverflows` | assignment-2/q3/group_comm.c:481-482 | such a copy exists: one group, two files, ten new groups |
| `Flood.ChainNeverRepeats` | assignment-2/q3/group_comm.c:460-486 | along every chain of forwards no group is sent to twice, none of the originator's groups is sent to, and the length is bounded |
| `Flood.Originate` | assignment-2/q3/group_comm.c:577-612 | the timer handler sends one copy per joined group with all of them recorded, and gives up exactly above 20 groups |
| `Flood.NeverBackToOriginator` | assignment-2/q3/group_comm.c:591-608 | no chain of forwards of an announced file list comes back to a group of its originator, or to any group twice |
| `Flood.DeliveryLoses` | assignment-2/q3/group_comm.c:435-488 | the copies that one delivery causes weigh less than the copy delivered, on every network within the limits |
| `Flood.FloodDiesOut` | assignment-2/q3/group_comm.c:435-488 | the number of deliveries and losses of every run is bounded by the weight of its first state, though memberships may change at every step |
| `ShellPipeline.CommandPipe.Insert` | assignment-1/q1/shell.c:48-61 | the command is behind the tail of the linked list, the count is the length |
| `ShellPipeline.WireUp` | assignment-1/q1/shell.c:478-594 | for any values outside the array, the child ends up with its own three ends of the pipe array exactly when it uses no entry outside |
| `ShellPipeline.TargetIsRightOfGroup` | assignment-1/q1/shell.c:541-594 | every member of a group writes to the pipe right of the whole group, or to the terminal after the last group |
| `ShellPipeline.Execute` | assignment-1/q1/shell.c:430-677 | the loop over the linear pipe array computes the specified run of the flat list |
| `ShellPipeline.RunCommand` | assignment-1/q1/shell.c:473-643 | one round of the loop reads, hands on and writes the pipes as specified |
| `ShellPipeline.StageRuns` | assignment-1/q1/shell.c:473-643 | running the commands of one stage leaves its outputs, concatenated in order, in the next pipe or on the terminal |
| `ShellPipeline.FlatMeansTree` | assignment-1/q1/shell.c:473-643 | for every pipeline that starts with a single command, the flat list over the pipe array prints what the tree means |
| `ShellPipeline.UsedInBoundsIffSingleFirst` | assignment-1/q1/shell.c:478-594 | every descriptor that is used is inside the array if and only if the first stage is a single command |
| `ShellPipeline.ThreeFetchesOutside` | assignment-1/q1/shell.c:473-642 | parent and children together fetch at least three times from outside the array, exactly three times if and only if the first stage is a single command |
| `ShellParser.StripBackground` | assignment-1/q1/shell.c:264-285 | the backwards scan finds the `&` sign exactly when it is the last character that is not blank; it is cut off only when a blank follows it |
| `ShellParser.CreateCmdPipe` | assignment-1/q1/shell.c:176-325 | shortcut commands leave the list alone; any other line emits the flat list of the tree it stands for, or ends the program |
| `ShellParser.BuildPipeline` | assignment-1/q1/shell.c:256-325 | the emitted list is the flat list of the tree the line stands for, so every group is a complete run of offsets; the other lines are rejected |
| `ShellParser.BarsAreCounted` | assignment-1/q1/shell.c:260-268 | empty tokens between bars only count the bars |
| `ShellParser.RenderReadsBack` | assignment-1/q1/shell.c:258-322 | every tree of clean texts is read back from its rendering |
| `ShellParser.LineReadsBackIff` | assignment-1/q1/shell.c:181-322 | the rendering of a clean tree is read as that tree if and only if it does not look like a shortcut command |
| `ShellParser.ShortcutIff` | assignment-1/q1/shell.c:181-183 | a shortcut line has at least three characters and starts with s and c |
| `ShellParser.SignIff` | assignment-1/q1/shell.c:270-279 | a text has the background sign if and only if its last character that is neither blank nor newline is `&`; it is cut there, unless that is the end of the text |
| `ShellParser.BackgroundReadsBack` | assignment-1/q1/shell.c:258-325 | every tree of clean texts followed by `&` and a blank or newline is read back as the same tree in the background |
| `ShellParser.MisfitsAreRejected` | assignment-1/q1/shell.c:287-315 | a group of fewer texts than its bars ask for ends the program |
| `ShellParser.FourBarsAreRejected` | assignment-1/q1/shell.c:287-320 | four or more bars before a command end it too |
| `ShellParser.MoreTextsAreDropped` | assignment-1/q1/shell.c:287-315 | texts beyond the second or third of a group are dropped |
| `ShellParser.BarsMean` | assignment-1/q1/shell.c:176-677 | from text to bytes: one command, or a group of two or three, behind the bars of any clean line reads all that the line prints, and the outputs of a group follow each other in its order |
| `ShellParser.RunLine` | assignment-1/q1/shell.c:176-677 | from the text of any line to what it prints: diverted as a shortcut, the end of the program, or the meaning of its tree, undefined exactly when that is empty or starts with a group |
| `RttScheduler.RunKeepsInv` | assignment-2/q1/rtt.c:207-445 | every interleaving of sender, receivers, losses and alarm keeps places, counters and times in order |
| `RttScheduler.OnePlace` | assignment-2/q1/rtt.c:232-442 | each address is in exactly one place: stack, flight, being pushed back, finished or lost |
| `RttScheduler.ThreeSendsAtMost` | assignment-2/q1/rtt.c:384-442 | no address is sent to more than three times, and tot_send_cnt is the number of sends |
| `RttScheduler.OnlyThreeSlots` | assignment-2/q1/utils.c:270-276 | reply k fills slot k - 1, which was empty, with the floor of the elapsed milliseconds, and no other slot is ever written |
| `RttScheduler.SenderFinishesAll` | assignment-2/q1/rtt.c:440-442 | without a timeout the sender stops only after three sends to every address |
| `RttScheduler.ReceiverFinishesAll` | assignment-2/q1/rtt.c:232-280 | without a timeout a receiver stops only when all addresses of its family have three recorded times |
| `RttScheduler.NeverStuck` | assignment-2/q1/rtt.c:207-445 | without loss and timeout some thread can go on, or all times are recorded |
| `RttWork.WorkIsBounded` | assignment-2/q1/rtt.c:207-445 | every run, whatever the interleaving, has at most 11 working steps per address |
| `RttWork.WorkCompletes` | assignment-2/q1/rtt.c:207-445 | every run without loss and timeout can be continued, by working steps of the threads only, to one with three recorded times for every address |
| `RttTimeout.StoppedIffRang` | assignment-2/q1/rtt.c:520-527 | in every run stop_threads is set exactly from the first alarm on |
| `RttTimeout.StoppedThreadsEnd` | assignment-2/q1/rtt.c:232-442 | from every reachable state after the alarm, whatever was lost, the three threads can all end by their own steps, in a bounded number of them |
| `RttTimeout.AlarmEnds` | assignment-2/q1/rtt.c:232-527 | every run can be cut short by an alarm and then ended by the threads alone |
| `RttTimeout.EndsOnEmptyStack` | assignment-2/q1/rtt.c:384-442 | in every run, alarm or not, the sender ends with nothing on the stack |
| `RttTimeout.DoneWithLastSend` | assignment-2/q1/rtt.c:425-442 | in every run the sender has ended as soon as the last send is counted, and before that only after the alarm |
| `RttTimeout.RunsEnd` | assignment-2/q1/rtt.c:207-445 | every run without loss and alarm goes on, by steps of the threads alone, to one in which all times are recorded and all three threads have ended |
| `RttTimeout.RecordedTimesAreRight` | assignment-2/q1/utils.c:270-276 | in every run the k-th reply of an address records the floor of the milliseconds from the k-th send to that address |
| `RttThreads.CountsAreFamilies` | assignment-2/q1/rtt.c:112-163 | the two counters of the address loop are the numbers of addresses that the receivers count down |
| `RttThreads.Start` | assignment-2/q1/rtt.c:105-163 | from the address list to the first state of the threads |
| `RttThreads.Shared.constructor` | assignment-2/q1/rtt.c:159-163 | the memory starts as the first state of the model, all sockets pushed |
| `RttThreads.Shared.Send` | assignment-2/q1/rtt.c:389-392 | sending the front job under the lock is SendTop on the shared arrays and the linked stack |
| `RttThreads.Shared.PopSent` | assignment-2/q1/rtt.c:392-442 | after a successful send, the pop, the total and the stop test are FinishSend |
| `RttThreads.Shared.Reply` | assignment-2/q1/rtt.c:252-271 | one reply stores the time that RoundTrip computes and decides on the count of sends as Receive does, without leaving the array of three |
| `RttThreads.Shared.PushBack` | assignment-2/q1/rtt.c:257-266 | pushing the address back under the lock is Push |
| `RttScheduler.PrintRtts` | assignment-2/q1/rtt.c:450-495 | the printing loop counts the slots that are still -1 |
| `RttScheduler.SuccessesAreReplies` | assignment-2/q1/rtt.c:450-495 | recorded replies and counted losses add up to three per address in every reachable state |
| `IcmpArithmetic.TvSub` | assignment-2/q1/utils.c:100-108 | the difference in place, in normal form even when negative |
| `IcmpArithmetic.RoundTrip` | assignment-2/q1/utils.c:270-276 | the stored time is the floor of the milliseconds; it reads as unset only when the clock went back by up to a millisecond |
| `IcmpArithmetic.SumWords` | assignment-2/q1/utils.c:113-132 | the loop computes the sum of the words, an odd byte padded, modulo 2^32 |
| `IcmpArithmetic.WordSumIs` | assignment-2/q1/utils.c:125-132 | in either byte order a pair of bytes adds its word, and a last odd byte the word padded with 0 |
| `IcmpArithmetic.InCksum` | assignment-2/q1/utils.c:113-144 | the method computes the specified checksum |
| `IcmpArithmetic.FoldAllIsResidue` | assignment-2/q1/utils.c:134-143 | folding until done (section 4.1 of RFC 1071) is the residue modulo 65535 |
| `IcmpArithmetic.TwoFoldsAreEnough` | assignment-2/q1/utils.c:134-143 | the two closing steps equal folding until done, on every 32-bit sum |
| `IcmpArithmetic.WrapLimit` | assignment-2/q1/utils.c:125-132 | no buffer of up to 65537 words wraps the sum; the longer all-ones buffers do |
| `IcmpArithmetic.CksumIsRfc1071` | assignment-2/q1/utils.c:113-144 | within that limit the result is the checksum of RFC 1071 |
| `IcmpArithmetic.Rfc1071Iff` | assignment-2/q1/utils.c:113-144 | for every buffer, the result is that of RFC 1071 if and only if the sum wraps a multiple of 65535 times, and not from a positive sum to 0 |
| `IcmpArithmetic.Rfc1071IffNoWrap` | assignment-2/q1/utils.c:113-144 | for every length that an int can hold, if and only if the sum does not wrap |
| `IcmpArithmetic.BeyondTheLimit` | assignment-2/q1/utils.c:125-132 | all-ones buffers longer than the limit, up to the largest int length, do not get that checksum |
| `IcmpArithmetic.ChecksumRoundTrip` | assignment-2/q1/utils.c:307-309 | for every buffer, whether or not the sum wraps, filling the zeroed checksum word with the result makes the buffer sum to 0 (section 1 of RFC 1071) |
| `IcmpArithmetic.ByteOrderIndependent` | assignment-2/q1/utils.c:125-143 | within the limit, swapping the bytes of every word swaps the bytes of the checksum (section 2(B) of RFC 1071), so the stored bytes are the same |
| `IcmpArithmetic.ByteOrderIff` | assignment-2/q1/utils.c:125-143 | for every buffer, it does so if and only if the wraps of the two sums balance modulo 65535 and both are left with 0 or neither |
| `IcmpArithmetic.ByteOrderMatters` | assignment-2/q1/utils.c:125-143 | buffers beyond the limit, of which only one sum wraps, for which it does not |
| `StringHash.Djb2Hash` | assignment-2/q1/hash_map.c:6-19 | the stepwise reduced hash is the exact 33-polynomial over the letters and digits modulo map_size, and nothing wraps |
| `StringHash.ExactAppend` | assignment-2/q1/hash_map.c:12-17 | the polynomial starts at 5381; each of the characters 0-9, A-Z, a-z multiplies by 33 and adds its code, any other changes nothing |
| `ChainedMaps.Bucket.Find` | assignment-1/q1/hash_map.c:95-112 | the data of the first node with the key, through the capacity shortcut |
| `ChainedMaps.Bucket.Insert` | assignment-1/q1/hash_map.c:130-138 | a new node in front of the chain, capacity up by one |
| `ChainedMaps.Bucket.Delete` | assignment-1/q1/hash_map.c:162-190 | unhooks exactly the first node with the key, capacity stays |
| `ChainedMaps.ChainedMap.constructor` | assignment-1/q1/hash_map.c:22-36 | all buckets distinct and empty: the empty map |
| `ChainedMaps.ChainedMap.Find` | assignment-1/q1/hash_map.c:117-121 | lookup in the finite map |
| `ChainedMaps.ChainedMap.Insert` | assignment-2/q1/hash_map.c:78-86 | adds the pair, or refuses a key that is there and changes nothing |
| `ChainedMaps.ChainedMap.InsertOrExit` | assignment-1/q1/hash_map.c:147-153 | adds the pair, and a key that is there ends the program |
| `ChainedMaps.ChainedMap.Delete` | assignment-1/q1/hash_map.c:199-206 | takes the key out of the map and returns its data, and a missing key ends the program |
| `ChainedMaps.ChainedMap.AllNodes` | assignment-1/q1/hash_map.c:45-70 | a separate list of copies, bucket by bucket, leaving the map as it was |
| `ChainedMaps.InsertRefines` | assignment-1/q1/hash_map.c:147-153 | prepending to the key's bucket is insertion into the finite map |
| `ChainedMaps.DeleteRefines` | assignment-1/q1/hash_map.c:199-206 | dropping from the key's bucket is deletion from the finite map |
| `ChainedMaps.FlatListsOnce` | assignment-1/q1/hash_map.c:45-70 | the buckets together list every entry of the map exactly once and nothing else |
| `ChainedMaps.ChainedMap.Replay` | assignment-1/q1/hash_map.c:95-206 | any sequence of find, insert and delete gets the answers of a finite map, up to the first that ends the program |
| `ChainedMaps.SurvivesIffAllowed` | assignment-1/q1/hash_map.c:147-206 | the program survives a sequence if and only if, for each insertion of a key, the last insertion or deletion of that key before it was a deletion, or there was none and the key was not there at the start; for each deletion the opposite |
| `ChainedMaps.AnswersTellHistory` | assignment-1/q1/hash_map.c:95-206 | every answer follows from the history of its key alone: a find gives what its last insertion stored, a deletion takes that out, and exactly an insertion of a stored key and a deletion of a missing one fail |
| `ChainedMaps.ChainedMap.ReplayRefusing` | assignment-2/q1/hash_map.c:78-117 | any sequence of find and insert on the string-keyed map gets the answers of a finite map that refuses duplicates |
| `ChainedMaps.RefusingTellsFirst` | assignment-2/q1/hash_map.c:78-117 | where duplicates are refused, every answer is about what was stored under the key first |
| `ChainedMaps.ShellMap` | assignment-1/q1/hash_map.c:10-36 | the shell's table starts as the empty map, command numbers hashed by their remainder |
| `AddressDedup.Collector.AddEntry` | assignment-2/q1/rtt.c:112-148 | one list entry: kept exactly if its canonical address is new, counted in its family |
| `AddressDedup.Collector.AddAll` | assignment-2/q1/rtt.c:112-148 | the used slots hold the sockets of the distinct addresses in order of first appearance, and ipv4_count + ipv6_count = unique_count |
| `AddressDedup.DistinctIsExact` | assignment-2/q1/rtt.c:112-148 | these addresses are pairwise different, and exactly those of the list |
| `AddressDedup.DistinctInOrder` | assignment-2/q1/rtt.c:112-148 | more list entries only append addresses |
| `AddressDedup.FamiliesAreListed` | assignment-2/q1/rtt.c:112-148 | a kept address is of the family under which the list has it |
| `AddressDedup.FoundIsRepeated` | assignment-2/q1/rtt.c:114-143 | skipping an entry whose raw text is found never skips a new address |
| `AddressDedup.Dedup` | assignment-2/q1/rtt.c:105-148 | the loop with the string hash of the program |
| `JobStack.Queue.Push` | assignment-2/q1/queue.c:37-53 | the new job is on top |
| `JobStack.Queue.Pop` | assignment-2/q1/queue.c:25-35 | the job on top goes; an empty queue stays |
| `JobStack.Queue.Front` | assignment-2/q1/queue.c:16-23 | the job pushed last, NULL when empty |
| `GroupCommands.Cursor.Next` | assignment-2/q3/utils.c:27-38 | one strtok call: the token and what the hidden cursor is left with |
| `GroupCommands.ParseCommand` | assignment-2/q3/utils.c:3-188 | the parser with its cursor computes the specified outcome of every line |
| `GroupCommands.ParseOptions` | assignment-2/q3/utils.c:131-142 | the option loop of init-poll, with its two tokens per round and its failures |
| `GroupLines.StrtokSplits` | assignment-2/q3/utils.c:27-38 | strtok on the text alone: delimiters in front are skipped, the token ends at the next one, and the cursor is left behind that |
| `GroupLines.SendLine` | assignment-2/q3/utils.c:94-111 | `send-message NAME "TEXT"` is the message TEXT to NAME, also with blanks in it, and undefined exactly when one of them does not fit |
| `GroupLines.OneWordLines` | assignment-2/q3/utils.c:50-93 | `find-group X`, `join-group X` and `leave-group X` are these commands on X, undefined exactly when X does not fit |
| `GroupLines.CreateLine` | assignment-2/q3/utils.c:31-49 | `create-group NAME IP PORT` is this command for every port that an int can hold |
| `GroupLines.RequestLine` | assignment-2/q3/utils.c:162-180 | `request-file FILE` is this command below 20 characters, undefined at 20, rejected above up to the length of a line |
| `GroupLines.PollLine` | assignment-2/q3/utils.c:112-145 | `init-poll` with as many quoted options as counted, up to five, is the poll with exactly these options |
| `GroupLines.BareLines` | assignment-2/q3/utils.c:146-161 | the four commands of one word |
| `GroupLines.MissingArguments` | assignment-2/q3/utils.c:31-180 | a command word without its arguments is rejected |
| `GroupLines.OtherWordIsRejected` | assignment-2/q3/utils.c:181-185 | so is any other first word, whatever follows |
| `GroupLines.MisspelledPrints` | assignment-2/q3/utils.c:221-233 | the two words printed differently, and the message without its quotes |
| `GroupCommands.OptionsReadBack` | assignment-2/q3/utils.c:131-142 | quoted options are read back: the second token of a round takes exactly the blank between two of them |
| `GroupCommands.RoundTripIffPrintable` | assignment-2/q3/utils.c:190-281 | for every command that fits its structure, parsing the printed line gives it back if and only if its fields are free of their delimiters and its word is not one of the two misspelled ones |
| `GroupCommands.MisspelledIsRejected` | assignment-2/q3/utils.c:221-233 | printed find-group and send-message commands are rejected by the parser |
| `GroupCommands.ParsedIsClean` | assignment-2/q3/utils.c:3-188 | whatever the line, a parsed command fits its structure and its fields are clean |
| `GroupCommands.PrintingNormalises` | assignment-2/q3/utils.c:190-281 | what was parsed from any line is parsed again from its own printout |
| `Decimal.IntTextReadsBack` | assignment-2/q3/utils.c:46-46 | atoi undoes %d on every int |
| `Decimal.SignIff` | assignment-2/q3/utils.c:190-205 | the printed decimal has a minus sign exactly when the number is negative, and no leading zero |
| `Decimal.AtoiReads` | assignment-2/q3/utils.c:46-46 | atoi skips white space, takes a sign, and gives the value of the digits by their positions, whatever follows them |
| `ChatServer.Directory.FindClientById` | assignment-1/q3/server.c:106-113 | NULL exactly for the ids that nobody registered |
| `ChatServer.Directory.RegisterClient` | assignment-1/q3/server.c:199-234 | afterwards exactly one more id is known, or the same ones when it was known |
| `ChatServer.Group.Join` | assignment-1/q3/server.c:237-246 | the client goes where num_clients points, whatever the uninitialised counter held |
| `ChatServer.Directory.CreateGroup` | assignment-1/q3/server.c:249-262 | a group's id is its position in the table, below 1024; the creator joins, and is the only member exactly when the uninitialised counter held 0 |
| `ChatServer.Directory.FindGroupById` | assignment-1/q3/server.c:80-90 | undefined exactly on negative ids; otherwise the shortcut already finds every group there is |
| `ChatServer.MessageQueue.Rcv` | assignment-1/q3/server.c:288-288 | msgrcv takes the first message of the type and leaves the order of the others |
| `ChatServer.HandleClientSend` | assignment-1/q3/server.c:283-297 | one round of the router of client messages is Dispatch and Forward, and dies exactly when the model crashes |
| `ChatServer.HandleRegister` | assignment-1/q3/server.c:199-234 | registration is Register: tables and routing model know the same users afterwards |
| `ChatServer.HandleCreate` | assignment-1/q3/server.c:249-262 | creation of a group is CreateGroup, with the next id |
| `ChatServer.SendGroupMessage` | assignment-1/q3/server.c:127-145 | the fan-out posts one message per member in the order of the table, and gets through exactly when every place up to the count holds a client and the count is not above the number of clients |
| `ChatServer.HandleGroupSend` | assignment-1/q3/server.c:266-281 | one round of the router of group messages is GroupTake and the fan-out; it survives exactly a group that exists and can be walked |
| `ChatServer.HandleMessages` | assignment-1/q3/client.c:296-332 | one round of a client's router is Take and Deliver, whatever the user's other routers hold |
| `ChatServer.SendMessage` | assignment-1/q3/client.c:348-377 | sending one message to a user is StartSend and FinishSend, whatever the user's other senders hold |
| `ChatServer.SendToGroup` | assignment-1/q3/client.c:348-377 | sending one message to a group is SendGroup |
| `ChatRouting.StepKeepsTypes` | assignment-1/q3/client.c:315-330 | every step keeps each message under a type that fits its protocol, sender and addressee |
| `ChatRouting.RunKeepsInv` | assignment-1/q3/client.c:297-377 | in every run, with any number of routers and senders per user, the sender's copies are what it sent to another user, in order, and the unexpired messages are on their way, each once; in the order of sending too, if the hands of this sender and of this addressee are emptied in order |
| `ChatRouting.OnePlace` | assignment-1/q3/client.c:297-377 | a sent message has one copy with the sender, and is in exactly one place on its way, or expired and nowhere |
| `ChatRouting.DrainedAgree` | assignment-1/q3/client.c:297-377 | once drained without expiry, the addressee's inbox for the sender holds the sender's copies; in their order, if the hands of these two were emptied in order, whatever the other users do |
| `ChatRouting.TwoRoutersReorder` | assignment-1/q3/client.c:397-397 | a run in which two routers of one user leave a drained inbox in another order than the sender's copies |
| `ChatRouting.ChatsAgree` | assignment-1/q3/client.c:297-377 | drained in both directions, the two inboxes of a chat hold the same messages |
| `ChatRouting.PeerInboxIsPure` | assignment-1/q3/client.c:315-330 | an inbox kept for a peer holds only what the two wrote to each other, never group traffic |
| `ChatRouting.GroupInboxIsPure` | assignment-1/q3/client.c:315-322 | an inbox kept for a group holds only what somebody wrote to that group |
| `ChatRouting.RouterTakesItsOwn` | assignment-1/q3/client.c:298-302 | what a router takes is addressed to its user, or group traffic |
| `ChatNames.RouterDiesIffUnknown` | assignment-1/q3/server.c:266-297 | left to themselves, the two routers of the server work off everything posted, whoever the members of the groups are, and one of them dies of a failed lookup if and only if a posted message was sent to an unknown user or group |
| `ChatNames.DoomedIffUnknownName` | assignment-1/q3/server.c:266-297 | in every run, the server has died of a failed lookup or has a message to nobody before it if and only if somebody wrote to an unknown user or group |
| `ChatNames.UnknownNameKills` | assignment-1/q3/client.c:183-216 | five steps from the start to the server's death: register, both sends of one message to an unknown name, and the two halves of one routing round |
| `ChatNames.UnknownGroupKills` | assignment-1/q3/client.c:148-181 | four steps with no client message at all: register, a message to an unknown group, and one round of the group router |
| `ChatNames.KnownNamesNeverCrash` | assignment-1/q3/client.c:148-217 | a run in which every user and group that was written to exists never makes a lookup of the routers fail |
| `ChatDelivery.DeliverQueues` | assignment-1/q3/client.c:308-330 | a router queues the message under its sender or group if it has no lifetime or is not older than that, and otherwise leaves the queue as it was |
| `ChatDelivery.ExpiredIffLate` | assignment-1/q3/client.c:308-313 | in every run exactly those messages expire whose delivery came later than the lifetime and the time that their senders gave them |
| `ChatDelivery.NoLifetimeNoExpiry` | assignment-1/q3/client.c:308-313 | a message sent without a lifetime expires in no run |
| `ChatDelivery.FanOutPosts` | assignment-1/q3/server.c:127-145 | the fan-out posts one copy per member, addressed to that member and otherwise what was sent, in order, and nothing else |
| `ChatDelivery.FanOutReachesMembers` | assignment-1/q3/server.c:127-145 | afterwards there is one more message to take for each member, as often as it is listed, and none for anybody else |
| `ChatDelivery.GroupMessageArrives` | assignment-1/q3/server.c:266-281 | a run in which a group message gets through the server into its reader's queue for the group |
| `ChatProgress.WhoCanMove` | assignment-1/q3/client.c:297-377 | in every reachable state each registered user can write to each registered user and each group, and a router can take, and a message can be shown, exactly when there is one of the type |
| `ChatProgress.MessagesArrive` | assignment-1/q3/client.c:297-377 | every run in which only known names were written to goes on, by posting, routing and delivering alone, to one in which the addressee's inbox holds all that was written to it and has not expired, in order if the hands of the two were; and nothing expires on the way but what is too late |

## Left out

- RttThreads: each section of a thread is a method that refines its step; the threads themselves are the runs of RttScheduler.
- PopSent: failing sends (rtt.c:397-424), after which nsent is advanced twice, are outside the fault model, in which local sends succeed.
- HandleControlMsg: demands that the handler does not crash; CrashFreeIffSafe says which configurations ensure it.
- RemoveWorker: demands a list of at least two, without which the C code dereferences a null pointer.
- RegisterClient: demands a free slot for a new client, since the C code does not check its array of 1024.
- CreateGroup: demands a free slot in the group table, for the same reason.
- ChainedMaps: freeing nodes, delete_map after deletions (it relies on the stale capacity), and failing allocations.
- AddressDedup: failures of initIp and of allocation, which end the program; what inet_pton and inet_ntop make of a text is part of the list entries, with the fact that a canonical text reads back as itself.
- JobStack: freeing popped elements and failing allocations.
- Flood: that the file list reaches a whole connected component, which the code does not guarantee because the count also grows for slots that are never filled.
- Multicast list: insertion and removal of groups (removal never updates the tail pointer), group discovery, poll tally, file transfer.
- GroupCommands: what happens in the undefined cases, and printing a NULL command.
- Shell: input and output redirection, the byte-level copy loop and its buffer, argument allocation, job control, and the shortcut commands beyond their map.
- Prefork: sockets, signals, accept failures, and the harvesting flag that is never read.
- Chat: how join requests and the uninitialised count make up the members of a group over a run, queries, control messages and their answers.
- SendGroupMessage: demands that the ids of the members are not negative, as user ids are.
- HandleGroupSend: demands the same of every group in the table.
- Cluster shell and the IP lookup tool: network plumbing.
