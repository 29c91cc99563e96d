# Verified model of the kernel's FAT32 library, scheduler and paging

The project models three parts of a small AArch64 kernel in Dafny and proves what they promise.

**FAT32 library (`libs/fat32/fat.c`).** Five layers, each proved to refine something simple.

- `fat.dfy` is the mounted volume, the class `FatFs.Fat`: a device, a one-sector write-back buffer and the allocator's
  counters. Its ghost value is the *logical disk* `L()`, the device overlaid by a dirty buffer, and the allocation table
  `T()` read from it. Reads and writes of the device may fail; a failed read leaves the buffer as it was.
- `chains.dfy` says what a sound table is: a set of disjoint acyclic chains with no link into a free cluster.
- `file.dfy` is the open file handle `Files.File`. Its value is the byte sequence `Data()` over the allocated chain, a size
  and a cursor. `session.dfy` runs any list of seeks, reads, writes and syncs on it against that value.
- `names.dfy`, `listing.dfy` and `slots.dfy` are the directory format: 32-byte slots, long-name groups, and `Lookup`, an
  independent definition of what a name denotes in a sequence of slots. `dir.dfy` is the directory walker `Dirs.Dir`.
- `unlink.dfy` puts directories and allocator together: creating, unlinking, and one after the other. `open.dfy` goes from a name
  to a handle on its file.

**Scheduler (`libs/scheduler.c` and its callers).** `queue.dfy` has the intrusive queues, `policies.dfy` the arithmetic of the
lottery, the random numbers and the aging counters, `snapshots.dfy` what a pick does to snapshots of the queues, `scenes.dfy`
what each policy decides and what every event makes of the system as equations, with the results about waiting, counters and boosts
that follow from them, and `sched.dfy` the class `Scheduling.Scheduler` with its seven policies. Every entry into the kernel is one atomic step; `Run`
takes any list of steps.

**Paging (`libs/mm.c`, `libs/fork.c`).** `pages.dfy` defines the four-level walk (Arm Architecture Reference Manual, "The
AArch64 Virtual Memory System Architecture", 4 KB granule, 48-bit addresses) over tables that lie in the same physical pages
the allocator hands out. `memory.dfy` has the allocator `Paging.Memory` and the address space `Paging.Mm`, `fork.dfy` the copy
of an address space, and `machine.dfy` all processes in one memory.

The on-disk formats follow the Microsoft FAT32 File System Specification, version 1.03, sections "FAT Data Structure",
"FAT32 FSInfo Sector Structure and Backup Boot Sector" and "FAT Long Directory Entries".

How to read the contracts:

- `Fat.T()` is the table, `Fat.Drift()` the difference between the counter of free clusters and the number of free entries
  modulo 2^32, `Fat.Flushed` says that the device equals the logical disk and carries the counters.
- `Snapshot` values (`Now()`) freeze the table, the chain, the data and the slots at one moment; `OnlyGrew`, `OthersKept` and
  `SameData` say what else stayed as it was.
- In the scheduler, `Signals()`, `States()` and `Counters()` are snapshots of all processes; `Fate(s)` is what pending signals
  `s` do to a process; a *survivor* is a process whose fate is to stay ready. `Keep(q, left)` is `q` without the processes
  outside `left`, in order.
- A `Scene` (`Now()`) is everything that a pick or a tick looks at or changes. `Decided(a, d, b)` says what the active policy
  makes of scene `a`; `Ticked`, `BurstEnded` and `Aside` are the scene after a tick, after the end of a burst and after the
  current process has left the CPU, so that the contract of a step reads as one equation between scenes.
- A `World` (`Here()`) is a scene with the process table and the remaining fields of the processes. `Followed(a, e, w, b)` says
  everything that event `e` makes of world `a`; the `Note` `w` holds what was found out on the way, such as the decision of the
  policy. A `History` is the worlds and notes of a run, and `Trace` says that each of its events was followed.
- In paging, `Ram` and `Space` are snapshots of the memory and of one address space; `Flat(user, va)` is the flat map that the
  page tables refine; `Walk` is what the hardware finds; `Spared` says that all pages of an address space are still in use
  with the same contents.

Where the code and its comments disagree the model follows the code:

- When a table read fails while a new chain is being started, `stretch_chain` returns its flag byte instead of the error
  (`libs/fat32/fat.c:427-428`). `ScanFree` and `StretchChain` model that: for the first read the byte is uninitialised, and
  `stale` stands for what it holds. Success is therefore stated with the ghost result `done`.
- `fat_file_write` reports success after a failed seek (`libs/fat32/fat.c:1373-1381`); `Write` returns the dropped error as `e`.
- `dir_next` tests the absolute sector number, which is only right when the data region is aligned to the cluster size
  (`libs/fat32/fat.c:513`); `AlignmentNeeded` says that this is exactly when it is right.
- `fat_unlink` takes an entry in the first slot of the root directory for the root itself and refuses it, and a directory
  whose last cluster is full has no end mark, so that it is never found empty. `Refused` has both.
- For an entry whose first cluster is 0, as other systems write for empty files, `fat_unlink` clears the reserved table entry 0
  and counts a free cluster too many; the next such entry cannot be unlinked at all. `Unlink` and `RemoveChain` say so, and
  `OnlyClustersCount` that the counter is kept exactly for real clusters.
- `parse_lfn_name` looks neither at how full the fragments of a long name are nor at the short entry behind them.
  `ParseName` says exactly what it accepts and `AcceptedButNotWhole` which of that is not a whole group.
- `copy_virtual_memory` can fail, and `copy_process` ignores that; `CopyVirtualMemory` says exactly when it fails.

## Model

| member | source | states |
|---|---|---|
| FatFs.Fat.SyncBuf | libs/fat32/fat.c:237-247 | writing the buffer back never changes the logical disk; on success the device equals it, on failure the buffer stays dirty |
| FatFs.Fat.UpdateBuf | libs/fat32/fat.c:250-265 | loading another sector never changes the logical disk, and on success the buffer is that sector of it |
| FatFs.Fat.SyncFs | libs/fat32/fat.c:268-293 | only the information sector can change; on success the device equals the logical disk and carries the two counters, and tables and mirror are kept |
| FatFs.Fat.CountersOnDisk | libs/fat32/fat.c:276-288 | after a flush the device's information sector reads back the last cluster used and the counter |
| FatFs.Fat.GetFat | libs/fat32/fat.c:296-325 | the low 28 bits of one entry and its classification, and the error exactly for values that are neither a mark nor a cluster number |
| FatFs.Fat.EntryFormat | libs/fat32/fat.c:298-318 | the entry of cluster c is the low 28 bits of the 32-bit number at byte 4 * (c % 128) of sector c / 128 of the table, and which values are free, bad, last and links |
| FatFs.Fat.PutFat2 | libs/fat32/fat.c:328-343 | one entry of one table changes in the logical disk and nothing else |
| FatFs.Fat.PutFat | libs/fat32/fat.c:346-356 | the active table gets exactly one new entry, mirror agreement is kept, and no data or information sector changes |
| Volume.PutBothFacts | libs/fat32/fat.c:328-356 | writing both tables changes the low 28 bits of one entry in each, keeps its upper four bits and leaves both tables equal |
| Bytes.LittleEndian | libs/fat32/fat.c:298-336 | the 32-bit numbers on the disk have their lowest byte first |
| FatFs.Fat.ClustClear | libs/fat32/fat.c:461-481 | exactly the sectors of one cluster become zero and all others stay |
| FatFs.Fat.RemoveChain | libs/fat32/fat.c:359-387 | ends on any table, cyclic ones included; on success frees exactly the run from its argument to an end mark, raises the counter by its length, keeps a sound table, the mirror and all data, and flushes; the drift of the counter is kept exactly when the argument is a real cluster |
| FatFs.Fat.FreeOne | libs/fat32/fat.c:366-384 | after every single table write of the freeing loop the table is still sound and the next cluster is again the head of a chain; a reserved entry is freed and counted like a cluster |
| FatFs.Fat.ScanFree | libs/fat32/fat.c:414-433 | finds the first free cluster in cyclic order after the last one used, within the number of clusters minus one probes; reports a full disk only when no other cluster is free |
| FatFs.Fat.StretchChain | libs/fat32/fat.c:390-452 | takes the tail's successor if it is free, else the first free cluster in cyclic order, appends exactly that one, keeps drift and mirror and flushes; the table stays sound even when it fails half way |
| FatFs.Fat.PutChain | libs/fat32/fat.c:435-445 | the table is sound after the end mark and after the link |
| FatFs.Fat.CreateChain | libs/fat32/fat.c:455-458 | a new chain of one cluster, the first free one in cyclic order |
| Chains.ChainsDisjoint | libs/fat32/fat.c:359-452 | in a sound table two chains with different heads share no cluster |
| Chains.ChainDistinct | libs/fat32/fat.c:359-452 | a chain never visits a cluster twice |
| Chains.ChainUnique | libs/fat32/fat.c:359-452 | a cluster starts at most one chain |
| Chains.FreeHeadKeeps | libs/fat32/fat.c:376-383 | freeing the head of a chain keeps the table sound and leaves its successor a head |
| Chains.AllocKeeps | libs/fat32/fat.c:435-437 | marking a free cluster as the end of a chain keeps the table sound |
| Chains.LinkKeeps | libs/fat32/fat.c:439-445 | linking a tail to a new one-cluster chain keeps the table sound |
| Chains.StretchKeeps | libs/fat32/fat.c:435-445 | stretching makes the one chain longer by the cluster at its end and keeps every other chain as it was |
| Chains.ChosenUnique | libs/fat32/fat.c:399-433 | the choice of the allocator is determined by the table, the last cluster used and the tail |
| Files.File.Seek | libs/fat32/fat.c:1394-1473 | the cursor is at the target, forward or backward; the chain has grown just far enough; bytes, size, everybody else's chains and sectors, drift and mirror are as before |
| Files.File.Advance | libs/fat32/fat.c:1434-1453 | one step along the chain, stretching it at its end, keeps what the handle sees |
| Files.File.Read | libs/fat32/fat.c:1312-1341 | exactly the bytes from the cursor up to the smaller of the length and the size are delivered, the rest of the target buffer is untouched, and the cursor moves behind them |
| Files.File.Write | libs/fat32/fat.c:1348-1382 | exactly the bytes from the cursor on are replaced, across sectors and clusters, the size becomes the maximum of the old one and the cursor; other chains and sectors, drift and mirror are untouched |
| Files.File.Sync | libs/fat32/fat.c:1479-1518 | on success the device itself holds the bytes, and the directory entry the size and the time stamps; table, drift and mirror and all other data sectors are kept |
| Files.WriteThenRead | libs/fat32/fat.c:1312-1473 | what is written is read back from the same place |
| Sessions.Run | libs/fat32/fat.c:1312-1518 | any list of seeks, reads, writes and syncs does to bytes, size and cursor what each of them says, until one fails, and keeps everybody else's chains and sectors, the drift and the mirror |
| Sessions.ReadsWhatWasWritten | libs/fat32/fat.c:1312-1518 | in such a session every byte read is the one last written there, or the one that was there |
| Sessions.OtherFileKept | libs/fat32/fat.c:1312-1518 | a file that shares no cluster with the one in use keeps its chain and every byte through a session |
| Layout.PatchedContent | libs/fat32/fat.c:1360-1382 | writing sector by sector amounts to splicing one byte sequence into another |
| Layout.OtherChainKept | libs/fat32/fat.c:390-452 | growth of one chain keeps every other chain of the table |
| Layout.SectorsDistinct | libs/fat32/fat.c:225-234 | the sectors of a chain are all different |
| Entries.StampedReads | libs/fat32/fat.c:1485-1510 | which bytes of an entry a sync changes, by their offsets in the format, and what is read back from them |
| Names.FragRoundTrip | libs/fat32/fat.c:651-721 | a fragment of a name written to a slot is read back, of 13 characters or fewer |
| Names.LfnSlotReads | libs/fat32/fat.c:651-671 | the fields of a long-name slot and its characters read as written |
| Names.LfnSlotLayout | libs/fat32/fat.c:651-671 | the 32 bytes of the slot that holds readme.txt, with the characters, the end mark and the filler at their places |
| Names.SequenceMasks | libs/fat32/fat.c:683-686 | the number and the mark that the parser takes from a head slot are those of the masks 0x1f and 0x40 |
| Names.Ord | libs/fat32/fat.c:938-950 | the first byte written to a long-name slot never reads as free or last, carries its number, and is marked on the first slot only |
| Names.AcceptedButNotWhole | libs/fat32/fat.c:674-721 | which of the groups that the parser accepts are whole: exactly those with used slots, full fragments and a matching short entry |
| Names.GapAccepted | libs/fat32/fat.c:685-707 | two fragments of one character each are accepted though they are no whole group |
| Names.PutSfnName | libs/fat32/fat.c:614-631 | the two loops and the dot handling produce the short name that `ShortNameOf` describes |
| Names.ShortNameOf | libs/fat32/fat.c:614-631 | for any name: the characters before the first dot fill the first eight bytes and those behind it the last three, cut short or padded with blanks; a name without a dot has a blank extension |
| Names.UpperCaseStored | libs/fat32/fat.c:596-611 | letters are stored in upper case, the special characters as they are, and all others, digits included, as an underscore |
| Names.GetCrc | libs/fat32/fat.c:183-189 | the loop computes the checksum that `CrcStep` describes |
| Names.CrcStep | libs/fat32/fat.c:183-189 | each step rotates the eight bits of the sum one place to the right and adds the next byte modulo 256, from 0 on |
| Names.CrcOfReadme | libs/fat32/fat.c:183-189 | the checksum of the short name of readme.txt is 0x73 |
| Slots.PutLfnNameFrag | libs/fat32/fat.c:651-671 | writes the fragment, an end mark, then filler to the 13 characters of a slot, and changes no other byte |
| Slots.SfnSlotLayout | libs/fat32/fat.c:970-981 | the 32 bytes of a short entry, with name, attribute, cluster halves, dates and times at their places |
| Slots.ClustOf | libs/fat32/fat.c:586-589 | the first cluster is the 16 bits at offset 26 and, above them, those at offset 20 |
| Slots.AlignmentNeeded | libs/fat32/fat.c:513-516 | the end-of-cluster test of the walker is right for every cluster exactly when the data region is aligned to the cluster size |
| Listing.LfnRoundTrip | libs/fat32/fat.c:674-721 | the slots written for a name of 1 to 255 bytes without 0x00 and 0xff decode to that name and length, and the short entry follows them |
| Listing.GroupDecodes | libs/fat32/fat.c:934-958 | the descending fragments and the checksum make a whole group |
| Listing.AddedLookup | libs/fat32/fat.c:872-984 | after adding, the new name is found where it was put, and the directory is still intact with its end right after the last entry |
| Listing.AddedEntry | libs/fat32/fat.c:872-984 | a search that arrives at the new entry finds it there and goes on behind it as before |
| Listing.AddedKeeps | libs/fat32/fat.c:872-984 | every earlier entry keeps its slots and its content |
| Listing.RemovedLookup | libs/fat32/fat.c:841-869 | after marking a group its name gives its next match, every other name what it gave, and the directory is intact |
| Dirs.Dir.Next | libs/fat32/fat.c:503-531 | the pointer moves to the next slot of the directory, across sectors and clusters, or reports the end exactly behind the last one |
| Dirs.Dir.NextStretch | libs/fat32/fat.c:546-559 | the next slot; at the end of the chain the directory gains exactly one zeroed cluster, and nothing else changes |
| Dirs.Dir.FindRoom | libs/fat32/fat.c:883-911 | finds the first run of free slots that is long enough, spanning clusters and growing the directory when needed |
| Dirs.Dir.WriteName | libs/fat32/fat.c:937-958 | writes the fragments in descending order, and nothing else |
| Dirs.Dir.Add | libs/fat32/fat.c:872-984 | afterwards the name is found with its attribute and cluster, every other name as before and with the same slots, the directory is intact, no other data changed, and the counter keeps its drift |
| Dirs.Dir.AddKeepsAll | libs/fat32/fat.c:872-984 | every entry found before keeps its slots byte for byte, when the directory has grown too |
| Dirs.Dir.ParseName | libs/fat32/fat.c:674-721 | accepts exactly the groups that `Accepted` describes; of a whole group it holds the text and the checksum, and it stops on the slot behind the group |
| Dirs.Dir.Search | libs/fat32/fat.c:724-776 | finds exactly what `Lookup` says the name denotes in an intact directory, or reports that it denotes nothing, and changes nothing |
| Dirs.Dir.RemoveEntries | libs/fat32/fat.c:841-869 | marks exactly the slots from the first of the group to the short entry |
| Dirs.Dir.CheckEmpty | libs/fat32/fat.c:1199-1224 | accepts exactly the directories whose slots behind the first two are free up to an end mark |
| Unlinking.Unlink | libs/fat32/fat.c:1180-1237 | frees exactly the run of the entry, marks exactly its slots, keeps every other name, chain and sector; a failure without a device error means that the name is not found, its entry refused, both without any change, or its first cluster not to be freed; says when the counter is kept |
| Unlinking.AttributeMasks | libs/fat32/fat.c:1194-1197 | the two tests of unlinking are those of the attribute masks 0x0d and 0x10, on every attribute byte |
| Unlinking.RootSlot | libs/fat32/fat.c:779-784 | an entry is taken for the root exactly in the first slot of the root directory |
| Unlinking.ClearedKeeps | libs/fat32/fat.c:359-387 | freeing one chain keeps every other chain |
| Unlinking.OnlyClustersCount | libs/fat32/fat.c:371-384 | freeing an entry and counting it keeps the counter right exactly when it belongs to a cluster; a reserved entry is lost and cannot be freed again |
| Unlinking.EmptyFileMiscounted | libs/fat32/fat.c:1192-1228 | the input: an empty file with first cluster 0 |
| Unlinking.Create | libs/fat32/fat.c:1259-1276 | a new one-cluster chain and an entry for it, found under its name with size 0; other entries, data and the drift are kept |
| Unlinking.CreateThenUnlink | libs/fat32/fat.c:1180-1276 | creating and unlinking a file restores the set of free clusters apart from clusters the directory gained, and what every name denotes |
| Unlinking.Undone | libs/fat32/fat.c:1180-1276 | the same as a statement about the states before, between and after |
| Opening.OpenFile | libs/fat32/fat.c:1249-1298 | the handle of the entry that the name denotes, with its size or none, at its start or end, showing the bytes of its clusters |
| Opening.HandleInData | libs/fat32/fat.c:231-234 | the sector computed for an entry's first cluster lies in the data region exactly when the number is at least 2 |
| Queues.ProcessQueue.Enqueue | libs/scheduler.c:86-107 | appends the process, and the tail is again the true last node of an acyclic list |
| Queues.ProcessQueue.Dequeue | libs/scheduler.c:110-129 | takes the front and keeps the order of the rest |
| Queues.ProcessQueue.Remove | libs/scheduler.c:134-142 | unlinks one node, wherever it is, and keeps the order of the rest |
| Queues.ProcessQueue.EnqueueSorted | libs/scheduler.c:147-192 | inserts before the first process with a larger estimate, or at the end |
| Queues.WithoutLinked | libs/scheduler.c:134-142 | taking a node out of a linked list and relinking its predecessor leaves a linked list |
| Policies.WinnerRange | libs/scheduler.c:536-561 | a process wins for the numbers of its own interval and no others, so that the walk always stops |
| Policies.LotteryExact | libs/scheduler.c:536-561 | as many numbers win for a process as it has tickets, and one when it has none |
| Policies.XorShiftBijection | libs/scheduler.c:495-506 | the xorshift64 step is a bijection of the 64-bit words |
| Policies.NextStateNotZero | libs/scheduler.c:495-506 | the state stays different from zero, whatever the timer says |
| Policies.XorShiftOfOne | libs/scheduler.c:501-503 | the step takes the word with only bit 0 to the one with bits 0, 6, 13, 17, 23 and 30 |
| Policies.BitsRead | libs/scheduler.c:490-506 | the words of the generator are 64-bit numbers: reading the bits of a number gives the number |
| Policies.RechargeRises | libs/scheduler.c:421-433 | an exhausted counter, negative ones included, rises with every recharge when the priority is at least 1 |
| Policies.RechargeIs | libs/scheduler.c:431 | the recharge is determined by a two-sided law: twice what it adds to the priority is the counter, or one less |
| Policies.EpochsHalve | libs/scheduler.c:421-433 | after n recharges what the counter lacks of 2p-1, or has above 2p, is what it was, divided by 2^n |
| Policies.BonusKept | libs/scheduler.c:425-429 | a process that stays blocked keeps at least half of its residual slice, or as much as its priority, on top of the priority, however many epochs pass |
| Policies.EpochsSettle | libs/scheduler.c:425-429 | its counter comes to 2p-1, or to 2p from above, once 2^n exceeds the distance, and stays there |
| Policies.EpochsBound | libs/scheduler.c:421-433 | over any number of recharges a counter never exceeds max(c, 2p), and from at most 2p-1 never 2p-1 |
| Policies.EpochsSuffice | libs/scheduler.c:421-433 | every counter becomes positive within as many recharges as its deficit |
| Scheduling.Scheduler.HandleSignals | libs/scheduler.c:834-866 | kill before stop before resume, one signal at a time |
| Scheduling.Scheduler.TakeLive | libs/scheduler.c:602-609 | takes the first process of a queue that survives its signals; all before it met their fate and left |
| Scheduling.Scheduler.PickHead | libs/scheduler.c:591-619 | round robin, first come and shortest job: the outgoing process goes to its place, the first survivor is dispatched, those before it fell, the rest keeps its order |
| Scheduling.Scheduler.FindWinner | libs/scheduler.c:546-561 | the walk stops at the holder of the winning number, with its predecessor |
| Scheduling.Scheduler.PickLottery | libs/scheduler.c:515-582 | the winner of a draw among those still queued is dispatched; draws that fall on dying processes remove them and are repeated until one survives or the queue is empty; the generator has made one step for every process drawn |
| Scheduling.Scheduler.SiftAll | libs/scheduler.c:375-408 | one walk over the queue drops exactly the processes that do not survive, keeps the order of the others and finds the first with the largest counter and its predecessor |
| Scheduling.Scheduler.SelectAging | libs/scheduler.c:374-434 | the selection loop ends for any counters; it picks the first survivor with the largest counter after just as many epochs as needed |
| Scheduling.Scheduler.PickAging | libs/scheduler.c:359-444 | the whole policy: the choice, the counters after as many recharges as there were epochs, the queue that is left |
| Scheduling.Scheduler.WaitTurn | libs/scheduler.c:359-444 | bounded waiting, over any list of ticks, yields, blocks, waits, exits that wake nobody and signals to others: a ready process with a slice left runs before the next recharge, and before more ticks than the slices of the others |
| Scheduling.Scheduler.Await | libs/scheduler.c:807-962 | one such event: it is the process's turn, or it is no further from it, nearer with every tick, and no counter was recharged |
| Scenes.TurnPicked | libs/scheduler.c:374-434 | whenever the slice of the running process is gone and the policy picks, it is the waiting process's turn or it is nearer to it by at least one |
| Scenes.TemperedPick | libs/scheduler.c:374-434 | no pick takes a counter above max(c, 2p-1), however many epochs it begins |
| Scenes.TemperedFollowed | libs/scheduler.c:807-962 | no event but the setting of a parameter takes a counter above max(c, 2p-1) |
| Scenes.NearerFollowed | libs/scheduler.c:807-962 | every event that brings nobody into the queue gives the waiting process its turn or takes it no further from it, by the equation of that event alone |
| Snapshots.TurnNearer | libs/scheduler.c:374-434 | the choice among counters: the waiting process is chosen, or what lies ahead of it shrinks by the slice of the one chosen |
| Scheduling.Scheduler.PickMultilevel | libs/scheduler.c:627-673 | the first survivor of the lowest-numbered level that has one is dispatched with that level's quantum |
| Scenes.Quanta | libs/scheduler.c:55-67 | the five quanta of each multilevel policy |
| Scheduling.Scheduler.Boost | libs/scheduler.c:695-714 | level 0 becomes all levels in order, nothing is lost or doubled, and every level entry is 0 |
| Scheduling.Scheduler.OnTick | libs/scheduler.c:686-731 | a boost at least every period, and otherwise at most the current process changes its level, by one |
| Scheduling.Scheduler.TickDown | libs/scheduler.c:898-916 | the counter of the current process falls by one and stops at zero, boost, demotion and tick count are those of the policy, and the tick goes no further while time is left |
| Scheduling.Scheduler.Tick | libs/scheduler.c:898-929 | the whole tick as one equation: the bookkeeping, and the decision of the policy exactly when the slice is used up and the policy is neither first come nor shortest job, under which a tick never changes the current process |
| Scheduling.Scheduler.PickNext | libs/scheduler.c:807-809 | each of the seven policies decides what `Decided` says, and no process that is neither ready nor running changes |
| Scheduling.Scheduler.Schedule | libs/scheduler.c:812-828 | the end of the burst, and then that decision |
| Scheduling.Scheduler.HandOver | libs/scheduler.c:869-888 | exactly the dispatched process runs afterwards, the outgoing one is ready if it was running |
| Scheduling.Scheduler.EndBurst | libs/scheduler.c:812-826 | only a process that blocks gets a new estimate, the mean of the burst and the old estimate |
| Scheduling.Scheduler.AddProcess | libs/scheduler.c:239-270 | a new process gets the next place, and its level is its queue priority brought into range; when it is ready it joins the queue that the policy wants at its place, and otherwise no queue changes; a full table refuses it |
| Snapshots.StartLevel | libs/scheduler.c:249-258 | a queue priority in range is the level, and any other goes to the nearer end |
| Scheduling.Scheduler.SetParam | libs/scheduler.c:280-325 | which values are accepted, that exactly the one parameter changes, the level with the queue priority, and that only this is remembered as a move |
| Scheduling.Scheduler.Fork | libs/fork.c:47-93 | the child has the next pid, inherits from the parent, is ready and joins its queue; nobody else changes |
| Scheduling.Scheduler.SearchProcess | libs/syscalls.c:422-429 | finds the process with a pid exactly when there is one |
| Scheduling.Scheduler.Wait | libs/syscalls.c:310-324 | refuses unknown pids and returns at once for an ended process, changing nothing; otherwise the caller waits for that pid, the policy decides, and another process runs |
| Scheduling.Scheduler.EndAndWake | libs/scheduler.c:935-959 | the current process becomes a zombie, and exactly its waiters become ready and join their queues, one after the other in the order of their pids |
| Scheduling.Scheduler.Exit | libs/scheduler.c:935-962 | the caller ends for good, exactly its waiters become ready, wait no more and are in their queues, the policy decides, and another process runs |
| Scheduling.Scheduler.Yield | libs/syscalls.c:177-181 | the slice is given up and the policy decides, with the caller among the candidates |
| Scheduling.Scheduler.Block | libs/syscalls.c:183-228 | the caller leaves the CPU in the given state, the policy decides, and another process runs |
| Scheduling.Scheduler.Signal | libs/syscalls.c:249-257 | exactly one process gets one more pending signal |
| Scheduling.Scheduler.Wake | libs/ipc.c:43-50 | a blocked process becomes ready and joins the queue that the policy wants at its place, all other queued processes keep theirs, and nobody else changes |
| Scheduling.Scheduler.Step | libs/scheduler.c:807-962 | every event makes of the whole world exactly what `Followed` says, an event without effect nothing at all; every invariant is kept, whoever has ended stays ended, and only a kill signal and only a queue priority that was set are remembered |
| Scheduling.Scheduler.CoherentHere | libs/scheduler.c:807-962 | between steps every process is ready exactly when it is in a queue, only the current one runs, and all maps speak of exactly the registered processes |
| Scheduling.Scheduler.Run | libs/scheduler.c:807-962 | any sequence of events is a list of these equations from the world before it to the one behind it; under priority aging, while no parameter is set, no counter ever rises above max(c, 2p-1) |
| Scheduling.RunFromStart | libs/scheduler.c:807-962 | every run from the idle task alone is such a list of equations, under each policy, and the invariants hold behind it; without a kill signal among the events every waiter waits for a registered process that has not ended, and without a queue priority being set every process queued under a multilevel policy is in the queue of its level |
| Scenes.BoostComes | libs/scheduler.c:690-715 | in any run of the feedback policy, any stretch with as many ticks as the boost period has a boost in it, after which every level entry is 0 but that of a process demoted in that tick |
| Scheduling.Scheduler.Reachable | libs/scheduler.c:86-270 | queues are acyclic lists with a true tail, a process is in at most one, other than the idle task it is ready exactly when it is in one, and only the current process runs |
| Scheduling.Scheduler.LevelMatches | libs/scheduler.c:217-258 | as long as no queue priority was set, a queued process is in the queue of its level, and levels stay in range |
| Scheduling.Scheduler.ShortestFirst | libs/scheduler.c:205-209 | the queue of the shortest-job policy is sorted by estimate |
| Scheduling.Scheduler.WaitersAreLive | libs/scheduler.c:935-962 | as long as no kill signal was sent, every waiting process waits for a registered process that has not ended |
| Tables.SamePath | libs/mm.c:98-101 | two 48-bit addresses select the same entries on all levels exactly when they lie in the same page |
| Tables.ReachIs | libs/mm.c:57-118 | following entries from the top table, through table descriptors only, reaches exactly the tables of the tree |
| Tables.WalkIs | libs/mm.c:57-126 | the walk of an address finds its last-level entry in the tree, if that is a page descriptor with its access flag |
| Tables.FlagsOpen | arch/mmu.h:4-17 | a page entry is a page descriptor with access flag and user access, writable, of memory kind 1, and leads to its page |
| TableSteps.LinkTree | libs/mm.c:104-110 | linking a zeroed page makes it one more table of the tree |
| TableSteps.LinkLeaf | libs/mm.c:104-110 | and no address finds anything else than before |
| TableSteps.LeafWritten | libs/mm.c:121-126 | writing a last-level entry changes what the addresses of one page find and nothing else |
| AddressSpaces.WalkFlat | libs/mm.c:57-126 | the page tables refine the flat map of the list of mapped pages |
| AddressSpaces.KernelListed | libs/mm.c:57-88 | `kernel_pages` holds exactly the table pages that can be reached from the top table |
| Paging.Memory.GetFreePage | libs/mm.c:33-43 | the lowest free page, marked and zeroed, or nothing when there is none |
| Paging.PagesFill | libs/mm.h:22-36 | the pages fill the memory from the end of the kernel up to the device registers |
| Paging.Memory.FreePage | libs/mm.c:46-54 | one page zeroed and free; an address inside a page changes nothing |
| Paging.Memory.MapTable | libs/mm.c:98-118 | the next table, made exactly when the entry is not set |
| Paging.Mm.NextTable | libs/mm.c:66-87 | one level down: the tree has the table of the next level, which is listed, and every walk finds what it found |
| Paging.Mm.MapPage | libs/mm.c:57-94 | a map update of what the hardware finds: addresses of the page find a user page entry that leads to the physical page, all others what they found; every page in use elsewhere keeps its contents, and the free count falls by the number of new tables |
| Paging.Mm.AllocateUserPage | libs/mm.c:23-30 | a zeroed page that was free is mapped, the pages mapped before keep their contents, and nothing happens when there is none |
| Forking.CopyVirtualMemory | libs/mm.c:184-199 | a page of its own for every mapped page, at the same virtual address with the same contents; pages in use before are untouched; it fails exactly when the free pages do not suffice |
| Forking.NextFits | libs/mm.c:186-190 | the lists of the child have room whenever those of the parent had, and the pages a copy takes are its user pages and its tables |
| Forking.CopyReadsTheSame | libs/mm.c:184-199 | every address reads in the child what it reads in the parent |
| Forking.TookSpares | libs/mm.c:33-94 | what one address space takes leaves every other one and its contents alone |
| Machines.Machine.Allocate | libs/mm.c:23-94 | no page ever belongs to two processes, and other processes keep their pages |
| Machines.Machine.Fork | libs/fork.c:13-46 | the child reads what the parent reads, no page is shared, every process keeps its memory, and the free count falls by exactly one page for the control block, the child's user pages and its tables |
| Machines.WrittenTogether | libs/mm.c:184-199 | a process that writes its own pages changes neither any address space nor any other process's pages |
| Machines.SparedReads | libs/mm.c:57-126 | an address space whose pages are spared reads the same everywhere |

## Left out

- Drivers, boot code, interrupt entry, shell and user programs: hardware and user interface. The timer value of the lottery and all time stamps are parameters.
- Mounting, probing and partitions: the volume starts as `Fat.constructor` has it. The layout they establish is `Geometry.Fits`: the regions are disjoint, the data region is aligned to the cluster size and covers every table entry, which the code relies on.
- Paths of several parts: `Search` and the operations built on it act within one directory; `follow_path`, `fat_stat`, `fat_dir_create`, `fat_dir_open` and `fat_dir_read` are not part of this model.
- Several open handles on one file or directory: `File` and `Dir` assume that nobody else changes their chain.
- Opening.OpenFile: requires that the entry heads a chain of its own that holds its size; for an entry with first cluster 0 or 1 the handle points outside the data region, as `HandleInData` says, and what reading it there does is not modelled.
- Scheduling.Scheduler.AddProcess: requires that the new process is not running, has no signals and waits for no process that has ended; the source does not look.
- Unlinking.Unlink: requires that the entry's first cluster is inside the table and not in the middle of a chain or the directory's own, which a damaged volume could violate; the source does not check it.
- FatFs.Fat.RemoveChain: requires a number inside the table; the source would read past the table for others.
- Error paths of multi-step operations: after a device error only the weak invariant `Fat.Valid` and what the tables keep is stated.
- The branch of the file operations that returns a parameter error for a handle without a volume: a handle of the model always has one.
- The name buffer and length of the walker are globals in the source and fields of `Dir` here; a short entry is written in one assignment.
- Characters are unsigned, as on AArch64, which matters to the test for 0xff.
- The message ring of `libs/ipc.c` is not part of this model: only blocking on it and waking up are steps.
- Resuming a stopped process: signals are looked at only for queued processes, so that branch is never taken, and a resume signal is only cleared.
- Waking the waiters of a killed process: the source wakes nobody, so the results about waiters speak of runs without kill signals (`killed`).
- Interrupts inside the scheduler: a tick is a step of its own, and forks that fail half way are left out.
- The idle task makes no system calls but fork and yield.
- The process array is the sequence of registered processes, without its empty places; pending signals are a set; counters and priorities are unbounded integers; 64-bit words of the random numbers are bit sequences.
- Switching registers and address spaces is the change of `current`.
- Paging.Mm.MapPage: requires enough free pages for its tables and room in the two lists, which the source does not check; without them it writes to page 0 or behind the lists.
- Machines.Machine.Fork: allows the free pages to run out only where a page is about to be mapped, not in the middle of making its tables, for the same reason.
- `map_sector`, `do_mem_abort`, `syscall_exec`, `copy_code` and the contents of the control block are not part of this model; physical pages are named by their physical addresses, without the kernel's window on them.
