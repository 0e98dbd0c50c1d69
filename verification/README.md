# A verified model of the user-space storage stack and its system call hook

The library runs blocking programs on user-level threads. File I/O is intercepted at the system call
instruction, cut into requests, placed by a small file system, and sent to several NVMe drives by polling. This
project models that path in Dafny and proves what it promises.

## The results

**Read after write, end to end** (`EndToEnd.LastWriteIsRead`, `EndToEnd.CallerReads`). A machine is made of the
clients' `read_impl` and `write_impl` calls, the block allocator, the RAID split, one submission/completion queue
pair for every drive and core with its bounce buffers, numeric request ids, and devices that fetch in order but
transfer and complete in any order. In every run of it a read returns, at every byte, what the last write to that
byte had in its buffer, unless an even earlier write was still waiting at that byte when one of the two issued its
request; a caller can tell where that may be, namely in the sectors of the last request of a write that has
returned. It is proved in two layers: the queue pairs refine a pool of requests that may be carried out in any order
(`Machine.RunRefines`), and the pool refines one byte map for each file (`Stack.StepInv`,
`ReadAfterWrite.LastWriteIsRead`). The premises are those of the design and can be checked by a client: writes leave
no holes and allocate from a non-empty ring, calls in progress do not write what another one reads or writes, a buffer
that a read fills belongs to one call, and a file is unlinked while no call is on it. Nothing is assumed of requests
that a returned write has left under way.

The same law is stated in a client's own terms, from the call to its return (`EndToEnd.AskedArrives`,
`EndToEnd.AskedIsRead`): every byte asked for that lies in the file arrives at its place in the buffer.

**Exactly what a returned write leaves** (`Exact`). Three laws one may expect of `write_impl` hold for some calls and
not for others. For every position, length, buffer and queue depth the exact condition is proved, over all runs of
the machine: a byte is on its drive at return, and is what a later read finds, exactly if it lies before the write's
last request (`Exact.DurableExact`, `Exact.ReadsBackExact`); a write keeps every byte outside its range exactly if its
length is a multiple of the sector size (`Exact.KeepsOthersExact`). For the failing calls `Scenario` builds whole runs
from the initial state, step by step (`Bench`, `Workload`), on one drive with one file.

**The queue pair** (`NvmeQueue`, `NvmeSafety`, `QueuePair`). The step machine keeps its invariant over unbounded
reuse of slots and unbounded wraps of both rings. A request id that polls complete stands for a request that ran
exactly once and whose bytes reached its own buffer (`NvmeSafety.RequestLife`). Unless the ring is full of waiting
commands, every run without new submissions ends, with every request consumed, after exactly the steps owed
(`NvmeSafety.Progress`). The class `QP` holds the fields of the C++ class and its methods are proved to be runs of
that machine.

**The file system** (`Myfs`, `Superblock`, `Names`). Free ring and block tables hold each block exactly once, in
every reachable state; the name table is an exact-name map for prefix-free names, over whole runs.

**Chunking** (`HookIo`). The loops of `read_impl` and `write_impl` transfer exactly the positions asked for, in requests
whose number and size are given by position and length alone.

**The system call hook** (`X86`, `Sled`, `Hook`, `Transparency`). The trampoline's bytes are decoded and executed,
the hand-written entry and exit code is run instruction by instruction, and the rewritten call is shown transparent
(`Transparency.Transparent`); a call that creates a thread is followed in both threads (`Transparency.NewThreadPhase`).
What is assumed of the compiled C code and of the kernel can be met for every placement (`Hook.AbiPossible`).

**The rewriter** (`Rewriter`, `Bitmap`). In-place rewriting over an arbitrary decoder equals a one-shot map over the
original instructions.

**Small protocols** (`LazyInit`, `Once`, `Helper`, `IoUring`). Any number of threads, every interleaving. Besides what
may never happen it is proved what must: after how many steps of its own each thread has returned
(`LazyInit.PublishedReturns`, `Once.EveryoneReturns`, `Helper.RoundTrip`) and when entries are submitted
(`IoUring.SubmitsExactly`).

## What does not hold of the code

These are proved too, each with the exact condition or a run that shows it.

- `NvmeSafety.DeadlockIffRingFull`: the driver lets as many commands wait as the ring has entries. The device takes
  a full ring for an empty one, so the queue pair stops for good exactly when n commands wait unfetched;
  `NvmeSafety.BurstDeadlocks` reaches that state.
- `Exact.DurableExact`, `Exact.ReadsBackExact`: `write_impl` leaves its window by `break` before the counter advances
  and so never awaits its last request (`HookIo.WriteImpl`). The bytes of that request need not be on a drive when the
  write returns, and a read begun afterwards may find old bytes there; all bytes before it are on their drives.
- `Exact.KeepsOthersExact`: a write of a length that is not a multiple of 512 overwrites the rest of its last sector
  with whatever the slot's bounce buffer held before (`NvmeSafety.StaleTail`).
- `Myfs.AllocateConserves`: allocation does not check the ring. It keeps the blocks conserved exactly when the ring
  is not empty and the entry is the one behind the table's end.
- `Myfs.UsedBlocksExact`: the usage count is right exactly when the ring is not empty; for an empty ring it is -1.
- `Myfs.OpenExact`, `Myfs.UnlinkExact`: names are compared as prefixes; the exact conditions are given.
- `Transparency.EntryPhase`: entries of the form 3m + 1 above `NR_syscalls` - 108 lose a word of the stack.
- `LazyInit.ZeroHalfMakesTwo`, `LazyInit.MarkHalfBlocks`: wrapper addresses whose low half is 0 or 0xffffffff
  break lazy initialisation, of mutexes and of condition variables.

A length of the sled divisible by three would break it too, for exactly the entries that `Sled.EndsExactly` names; the
code's length of 512 is not one.

## Model

| member | source | states |
|---|---|---|
| EndToEnd.LastWriteIsRead | newlib/hook.c:155-265 | over any run of the whole stack with real queue pairs a returning read has, at each byte, what the last write to that byte had in its buffer when it returned, unless an earlier write was still waiting there when a request was issued; only a write request on the byte's sector or an unlink of the file in between can change it |
| EndToEnd.CallerReads | newlib/hook.c:155-265 | the same without looking at what is under way: where nothing is unlinked, only bytes in the sectors of the last request of a returned write can be read as anything else |
| EndToEnd.NotWild | newlib/hook.c:241-260 | a byte that no returned write had in the sectors of its last request has no earlier write waiting when a call issues its request |
| EndToEnd.CallServes | newlib/hook.c:155-245 | from the moment it is made until it returns a call works on the file, position and buffer it was made with and on the length asked for, of which a read leaves off what lies behind the end of the file |
| EndToEnd.AskedArrives | newlib/hook.c:155-215 | every byte that a read asks for and that lies in the file when it is made is at its place in the client's buffer when it returns, with the value the file holds there |
| EndToEnd.AskedIsRead | newlib/hook.c:155-265 | read after write in the clients' own arguments: a byte that one call asked to write and another, returning later, asked to read is what the write's buffer held |
| Exact.DurableExact | newlib/hook.c:217-265 | a byte of a write is on its drive when the write returns, in every otherwise undisturbed run with queue pairs of the given depth, exactly if it lies before len - 4096 for a write of whole pages and before (len - 1) / 512 * 512 for any other |
| Exact.ReadsBackExact | newlib/hook.c:155-265 | every read that returns after the write finds the byte, in every otherwise undisturbed run, exactly under the same condition |
| Exact.KeepsOthersExact | newlib/nvme.cc:613-654 | a write from idle to idle keeps every known byte outside its range, of every file and in every run, exactly if its length is a multiple of 512 |
| Scenario.Early | newlib/hook.c:241-260 | for each position, length, buffer and queue depth and each byte from the last request on: a run at whose end the write may return, although the byte on the drive is an old one |
| Scenario.ReadEarly | newlib/hook.c:155-215 | and it goes on to a read, begun after that return, that returns the old byte |
| Scenario.Whole | newlib/nvme.cc:627-631 | for each length that is not a multiple of 512: a run in which everything is carried out and consumed, and the byte behind the write is a zero from the bounce buffer |
| Workload.Serve | newlib/nvme.cc:543-654 | issuing, fetching, carrying out, posting, consuming and polling one request are possible in this order, and leave exactly its bytes on the drive or in the buffer |
| Machine.RunRefines | newlib/nvme.cc:543-654 | every run of the stack over queue pairs, drives completing out of order and slots reused, is step by step a run of a pool of independent requests |
| Machine.StepInv | newlib/nvme.cc:543-654 | each single step of client, host or device is a step of the pool, and the queue pairs' logs, the pool's requests and the request ids the calls await stay matched; a read returns when it has seen all of them complete, a write all but its last |
| Machine.ExecuteSeen | newlib/nvme.cc:562-579 | when a device carries out a command, the request it belongs to is still waiting in the pool and is the one whose drive, sectors and bytes the command has |
| Machine.ConsumeSeen | newlib/nvme.cc:307-363 | the completion consumed belongs to a request of the pool that has been carried out, and the bounce buffer holds that request's bytes |
| Machine.PolledOver | newlib/nvme.cc:583-611 | a numeric request id that polls complete, decoded as `nvme_check` does, is not that of any request under way, whatever later requests use the slot |
| ReadAfterWrite.LastWriteIsRead | newlib/hook.c:155-265 | the same law over the pool, for every order in which requests are carried out and consumed |
| ReadAfterWrite.DurableBelowLast | newlib/hook.c:241-260 | when a write returns each byte before its last request is on its drive with the buffer's value, whatever the drives still have to do |
| ReadAfterWrite.RunTails | newlib/hook.c:241-260 | in every run without unlinking, what returned writes have left under way lies in the sectors of their last requests |
| ReadAfterWrite.Returns | newlib/hook.c:193-210 | when a write returns the file's byte map holds its buffer on its whole range; when a read returns its buffer agrees with the byte map wherever that is determined; the bytes where an earlier write was waiting are excepted |
| ReadAfterWrite.SpecFrame | newlib/hook.c:243-252 | no step changes a byte of a file except a request of a write whose sectors cover it, or unlinking that file |
| ReadAfterWrite.BlocksConserved | newlib/myfs.c:33-43 | in every reachable state each block is in the free ring or in one table exactly once, and the usage count is right unless the ring is empty |
| Stack.StepInv | newlib/hook.c:155-265 | every step of calls, allocator, drives and host keeps blocks conserved, places injective, each active request in its call's range, known bytes on the drives or on their way, and buffers right |
| Stack.IssueInv | newlib/hook.c:193-203 | issuing the next chunk keeps all of that, allocation and address translation included |
| Stack.UnlinkInv | newlib/myfs.c:91-113 | removing a file that no call is on keeps every other file's bytes, whatever writes to it are still waiting |
| Stack.InitInv | newlib/myfs.c:28-46 | a fresh file system with nothing under way satisfies the invariant |
| Calls.NextOwned | newlib/hook.c:196-202 | the next request of a call lies inside its call's range and belongs to it, as every other request under way to its own |
| Calls.NextClear | newlib/hook.c:243-248 | after it is issued no other call's write is waiting at a byte that an active call has issued, the known exceptions aside |
| Calls.NextFits | newlib/hook.c:170-202 | each next request starts on a sector, fits one 4 KiB page, and its sectors end before the next one starts |
| Calls.ReadDelivered | newlib/nvme.cc:335-336 | delivering a request fills its own part of its own call's buffer with the file's bytes and settles nothing else |
| Calls.WriteIssued | newlib/hook.c:243-248 | issuing a chunk of a write extends the part of the file that holds its buffer and touches no other call's range |
| Volume.WriteReaches | newlib/nvme.cc:627-636 | after a drive carried out a write, each determined byte of each file is at its place or still covered by a waiting write |
| Volume.ReadSees | newlib/nvme.cc:562-576 | what a read transfers agrees with the byte map at every byte at which no write was waiting when it was issued |
| Volume.WriteIssueOk | newlib/hook.c:243-248 | a new write that meets no read keeps every request consistent with the byte map, which moves at once except where an earlier write is waiting |
| Volume.ReadIssueOk | newlib/hook.c:196-202 | a new read leaves requests and bytes consistent |
| Volume.ExtendOk | newlib/myfs.c:184-200 | allocation leaves every request and byte where it was |
| Volume.EraseOk | newlib/myfs.c:91-113 | unlinking a file without reads under way takes away its bytes and no others, although writes to it may be waiting |
| Locate.FoundOk | newlib/myfs.c:179-210 | a translation keeps the blocks conserved and every place there was, and leads to one contiguous run on one drive for a request inside a page |
| Locate.Finds | newlib/myfs.c:202-206 | the assertion that the entry is active never fails for a hole-free write with a free block or a read inside the file |
| Layout.LocInjective | newlib/myfs.c:208 | no two bytes of files allocated at the same time are the same byte of a drive |
| Layout.LocRun | newlib/nvme.cc:548-566 | the bytes of a file inside a 4 KiB page are consecutive on one drive |
| Layout.UnlinkPlaces | newlib/myfs.c:91-113 | unlinking takes exactly that file's bytes off the map from file bytes to drive bytes |
| Layout.OpenPlaces | newlib/myfs.c:146-176 | opening or creating a file moves no byte |
| Addressing.RaidInjective | newlib/nvme.cc:548-566 | the sector is recovered from drive and drive address: drives take turns every 8 sectors |
| Addressing.RaidSurjective | newlib/nvme.cc:617-630 | every drive address is that of exactly one sector, for every number of drives |
| Addressing.RaidStripe | newlib/nvme.cc:566 | a run inside an 8-sector stripe is contiguous on one drive |
| Addressing.RaidStripeOnly | newlib/nvme.cc:548 | a run that leaves its stripe changes drive when there are several |
| Addressing.Cdw10Fits | newlib/myfs.c:208 | drive addresses of the file system's sectors fit 32 bits |
| Addressing.RidRoundTrip | newlib/nvme.cc:579-588 | `nvme_check` recovers drive, queue and slot from a request id |
| Addressing.BuffersDisjoint | newlib/nvme.cc:228-263 | different slots have disjoint bounce buffers |
| Addressing.BuffersFit | newlib/nvme.cc:33 | all buffers lie in their 2 MB pages exactly for depths that fill less than one page or whole pages |
| NvmeQueue.ApplyInv | newlib/nvme.cc:233-369 | every step of driver and device keeps the invariant that ties rings, phases, slots and bounce buffers to the requests' stages |
| NvmeQueue.PhaseTagExact | newlib/nvme.cc:307-308 | the head entry has the expected phase exactly when more completions were posted than consumed, and then names the oldest of them; at most n are outstanding |
| NvmeQueue.HeadEntry | newlib/nvme.cc:310-336 | the entry consumed belongs to a posted request whose slot still holds its own pointer, length and data |
| NvmeQueue.PostRoom | newlib/nvme.cc:237-246 | slot reservation alone leaves room in the completion ring for every command in flight |
| NvmeQueue.FetchSees | newlib/nvme.cc:255-257 | a device that fetches sees a submitted command, and it is the one of the oldest unfetched request |
| NvmeQueue.RunsOwn | newlib/nvme.cc:563-572 | a command about to run carries its own request's sectors and works on its own slot's buffer |
| NvmeSafety.RequestLife | newlib/nvme.cc:543-654 | if polling reports a request done, the device ran it at exactly one step and the host consumed it later; a read's own buffer then got the bytes its range held when it ran, a write's bytes were on the drive |
| NvmeSafety.PollSound | newlib/nvme.cc:380-382 | a done flag seen under any slot reuse means that this very request was consumed; for a slot's latest request it is exact |
| NvmeSafety.SubmitTakesFreeSlot | newlib/nvme.cc:233-254 | the slot handed out is never that of a request in flight |
| NvmeSafety.InFlightUntouched | newlib/nvme.cc:558-636 | while a request is in flight no step changes its entry, pointer, length or bounce buffer, its own transfer excepted |
| NvmeSafety.StageStep | newlib/nvme.cc:300-369 | each step takes a request at most one stage on, and only the steps that are for it |
| NvmeSafety.ExecutedOnce | newlib/nvme.cc:543-581 | no request is carried out twice in a run |
| NvmeSafety.ConsumedInOrder | newlib/nvme.cc:307-367 | completions are consumed once each and in the order of posting |
| NvmeSafety.StaleTail | newlib/nvme.cc:627-631 | a write whose length does not fill its last sector puts its bytes on the drive followed by what the slot's bounce buffer held at submission, whatever happens in between |
| NvmeSafety.Progress | newlib/nvme.cc:300-369 | unless n commands wait unfetched, a run without submissions takes exactly the steps its requests have advanced, and can go on exactly as long as one of them is not consumed |
| NvmeSafety.OneRequestPerSlot | newlib/nvme.cc:237-246 | two requests in flight never share a slot |
| NvmeSafety.DeviceSeesWaiting | newlib/nvme.cc:233-257 | at most n commands wait, and the device sees one exactly when between 1 and n - 1 wait |
| NvmeSafety.DeadlockIffRingFull | newlib/nvme.cc:235-245 | no step is possible exactly when n commands wait unfetched |
| NvmeSafety.BurstDeadlocks | newlib/nvme.cc:233-257 | n submissions before the device fetches any lead there |
| QueuePair.QP.constructor | newlib/nvme.cc:173-202 | a fresh queue pair is an initial state; pointers and lengths are whatever memory held |
| QueuePair.QP.ConsumeOne | newlib/nvme.cc:310-366 | one turn of the polling loop is the step machine's consumption |
| QueuePair.QP.CheckCq | newlib/nvme.cc:300-370 | every posted completion is consumed, the new head is the device's tail, and the device is told |
| QueuePair.QP.NewSqe | newlib/nvme.cc:246-253 | the tail slot is reserved and the tail advances modulo the ring |
| QueuePair.QP.AwaitSlot | newlib/nvme.cc:237-245 | at the end of the wait the slot at the tail is free, or the device had no turn, or every completion it has posted has been consumed; a slot that is free is not waited for, and no request is added |
| QueuePair.QP.Issue | newlib/nvme.cc:558-577 | filling in the entry and ringing the doorbell is one submission |
| QueuePair.QP.Request | newlib/nvme.cc:543-654 | a read or write request is a wait followed by the submission of exactly that request in the slot at the tail; without a slot after a wait, the request that holds the slot is in flight and its completion is not posted |
| QueuePair.QP.Check | newlib/nvme.cc:583-611 | success means that every request ever given this slot was consumed |
| QueuePair.QP.Done | newlib/nvme.cc:380-382 | true means that every request ever given the slot has been consumed; for the slot's latest request the answer is exact, and an unused slot is not done |
| QueuePair.SpinLeads | newlib/nvme.cc:237-245 | whatever the device does meanwhile, waiting and polling are runs of the step machine |
| QueuePair.SpinEnds | newlib/nvme.cc:237-245 | however a wait goes, it ends with a free slot, without a turn of the device, or with nothing posted left to consume |
| QueuePair.DeviceTurnIs | newlib/nvme.cc:237-245 | every run of the device's own steps can happen between two polls of a wait |
| HookIo.ReadImpl | newlib/hook.c:155-215 | exactly the positions that were asked for and lie in the file are read, for every window size: as one request if they are in one page, else in requests of 8 sectors for whole pages and of one sector otherwise, in order, each accepted by the driver and inside one page; every request issued was seen complete |
| HookIo.WriteImpl | newlib/hook.c:217-265 | exactly the positions asked for are written, as len / 4096 requests of 8 sectors if position and length are multiples of 4096 and as len / 512, rounded up, requests of one sector otherwise; every request but the last issued was seen complete |
| HookIo.ReadWindows | newlib/hook.c:188-210 | the windowed loop issues exactly the chunks of the plan and awaits them all |
| HookIo.WriteWindows | newlib/hook.c:241-260 | leaving the window by break before the counter advances loses the last request of the write and no other |
| HookIo.ChunksTile | newlib/hook.c:193-202 | the chunks follow one another without gap or overlap up to exactly the end |
| HookIo.ChunksFit | newlib/hook.c:170-201 | each chunk is 1 to 8 sectors, starts on a sector and stays in one 4 KiB page |
| Myfs.AllocateConserves | newlib/myfs.c:184-200 | allocation keeps the blocks conserved exactly when the ring is not empty and the entry is the one behind the table's end |
| Myfs.TablesDisjoint | newlib/myfs.c:91-113 | no block is in two table entries, and every entry is a block number |
| Myfs.UnlinkConserves | newlib/myfs.c:91-113 | unlinking keeps the blocks conserved |
| Myfs.UnlinkRoom | newlib/myfs.c:96-106 | the pushes of an unlink never overfill the ring |
| Myfs.InitConserved | newlib/myfs.c:33-43 | a fresh superblock holds each of the blocks 0 to N - 2 once |
| Myfs.OpenConserves | newlib/myfs.c:146-176 | opening keeps the blocks conserved |
| Myfs.UsedBlocksExact | newlib/myfs.c:49-59 | the usage count is the sum of the named files' blocks exactly when the ring is not empty, and -1 otherwise |
| Myfs.OpenExact | newlib/myfs.c:146-176 | opening is the exact-name operation exactly when no stored name that properly extends the given one stands before it |
| Myfs.UnlinkExact | newlib/myfs.c:132-143 | unlinking by name removes just that name exactly when no stored name properly extends it |
| Names.TableIsMap | newlib/myfs.c:132-176 | in every run on prefix-free names the table is the exact-name map |
| Names.OpenFinds | newlib/myfs.c:146-176 | in such a run an open finds the slot of that very name or takes one that no name has |
| Superblock.Superblock.constructor | newlib/myfs.c:28-46 | initialisation over a mapping whose block counts are arbitrary gives a conserved file system |
| Superblock.Superblock.CountUsed | newlib/myfs.c:49-59 | the sum of the named files' blocks, or -1 when the ring is empty |
| Superblock.Superblock.GetSize | newlib/myfs.h:43-52 | the size is that of the blocks the file holds |
| Superblock.Superblock.Unlink | newlib/myfs.c:91-113 | the file's blocks go to the end of the free list in order, and the record has no name, block, reference or flag left |
| Superblock.Superblock.TryUnlink | newlib/myfs.c:115-122 | the file is erased without references, and only marked with them |
| Superblock.Superblock.UnlinkName | newlib/myfs.c:132-143 | every file whose name starts with the given one, and no other, is erased if it has no references and marked otherwise; no block is lost |
| Superblock.Superblock.Open | newlib/myfs.c:146-176 | the first file whose name starts with the given one is opened, or else the first free slot gets the name and no blocks; every other file is as it was |
| Superblock.Superblock.Allocate | newlib/myfs.c:186-200 | the block at the read pointer goes to the entry unchecked; the blocks stay conserved exactly if the ring was not empty and the entry was the one behind the table's end |
| Superblock.Superblock.Lba | newlib/myfs.c:179-210 | the sector is block * 4096 + offset % 2097152 / 512, with allocation for a write to an inactive entry; the blocks stay conserved exactly under the condition of `Allocate`, and then a write never fails the final assertion |
| Sled.SetupTrampoline | newlib/zpoline.c:451-504 | the fill loop and the stores leave exactly the sled and the jump to the hook, and nothing else changes |
| Sled.SledRuns | newlib/zpoline.c:424-468 | for every length not divisible by three and every entry: execution stays in the sled and reaches exactly its end, in at most as many steps as bytes remain; one word is pushed exactly from entries 3m + 1 up to length - 108, and nothing else changes |
| Sled.EndsExactly | newlib/zpoline.c:451-468 | which entries of a sled reach its end: all of them unless its length is divisible by three, and then exactly those whose next jump is not a whole number of jumps before the last one |
| Sled.SledLoops | newlib/zpoline.c:451-468 | with such a length, from the three addresses the last jump leads to, a word is pushed every three steps for ever |
| Sled.PopTest | newlib/zpoline.c:160-168 | the multiply-and-compare test is exact for all 64-bit values |
| Sled.Balanced | newlib/zpoline.c:158-169 | pushes and pops agree exactly for entries up to length - 108 and for those not of the form 3m + 1 |
| Hook.PopBlock | newlib/zpoline.c:157-169 | the first lines restore rax and drop a word exactly for 3m + 1; every other register and the stack above are kept |
| Transparency.Transparent | newlib/zpoline.c:123-265 | the whole way of a rewritten call: aligned call of the C hook, raw system call with the original number and arguments and the caller's stack as it was, return behind the call with every register restored and the kernel's result in rax |
| Transparency.EntryPhase | newlib/zpoline.c:157-169 | down the sled and through the test all registers are as at the call, and the stack pointer too exactly for balanced entries |
| Transparency.HookPhase | newlib/zpoline.c:171-201 | at the C call the stack is aligned to 16 bytes and holds the arguments and everything to be restored |
| Transparency.CallPhase | newlib/zpoline.c:228-265 | the C hook passes number and arguments on for rewritten addresses, and keeps what is on the stack above its frame |
| Transparency.NewThreadPhase | newlib/zpoline.c:256-265 | a rewritten clone that creates a thread reaches the raw system call with the original number and arguments, except that the new thread's stack pointer is one word lower and that word holds the address behind the call; nothing else of what callers have on their stacks has changed |
| Transparency.NewThreadReturns | newlib/zpoline.c:171-221 | the thread that made it goes on behind the call with every register restored |
| Transparency.ChildGoesOn | newlib/zpoline.c:123-137 | the new thread goes on behind the call too, with exactly the stack pointer the program gave it |
| Transparency.RawPhase | newlib/zpoline.c:123-137 | `enter_syscall` puts number and arguments where the kernel expects them |
| Transparency.SigreturnTransparent | newlib/zpoline.c:171-221 | rt_sigreturn reaches the raw system call with the stack pointer from before the rewritten call |
| Transparency.Clone3Refused | newlib/zpoline.c:253-254 | clone3 comes back with -ENOSYS and everything else restored |
| Transparency.ForeignTrapped | newlib/zpoline.c:240-251 | an entry from an address that was not rewritten is trapped |
| Rewriter.DisassembleAndRewrite | newlib/zpoline.c:310-334 | rewriting in place under the decoder equals the map on the original code, and afterwards the bitmap holds exactly the rewritten addresses besides what it held |
| Rewriter.DoRewrite | newlib/zpoline.c:277-307 | one decoded system call other than the exempt one becomes a call and is recorded |
| Rewriter.BoundariesKept | newlib/zpoline.c:329-330 | the rewritten code decodes to the original instructions, the system calls exchanged |
| Rewriter.RewriteIsMap | newlib/zpoline.c:288-302 | the rewritten code is the rewritten instructions one after another |
| Rewriter.Idempotent | newlib/zpoline.c:310-334 | rewriting again changes nothing |
| Rewriter.NothingLeft | newlib/zpoline.c:288-302 | no system call outside the exempt address is left |
| Bitmap.SetBit | newlib/zpoline.c:90-98 | exactly the bit of the address is added |
| Bitmap.BitsApart | newlib/zpoline.c:90-98 | setting one bit of a byte sets that bit and no other |
| LazyInit.ExactlyOnce | newlib/mylib.c:185-235 | in every run of any number of threads one wrapper at most is made, and whoever returns has it, finished; for mutexes and condition variables |
| LazyInit.StepInv | newlib/mylib.c:370-389 | every access of a thread keeps the object unclaimed, claimed by one thread, or published |
| LazyInit.PublishedReturns | newlib/mylib.c:219-233 | over any run, once the wrapper is published a thread has returned with it exactly if it has taken the steps it still needed, at most three, whatever the others do |
| LazyInit.ZeroHalfMakesTwo | newlib/mylib.c:219-223 | with an address whose low half is zero a second wrapper is made although the first has been returned, for mutexes and condition variables |
| LazyInit.MarkHalfBlocks | newlib/mylib.c:224-225 | with addresses whose low half is 0xffffffff no two threads ever return; with a mutex none does |
| Once.RoutineOnce | newlib/mylib.c:566-588 | the routine is begun at most once and nobody returns before its end |
| Once.RunnerEnds | newlib/mylib.c:575-581 | over any run the routine is over exactly when the thread that runs it has taken its two steps, whatever the others do |
| Once.OverReturns | newlib/mylib.c:582-586 | once it is over a thread has returned exactly if it has taken the steps it still needed, at most two |
| Once.EveryoneReturns | newlib/mylib.c:566-588 | after three steps of the thread that comes first every thread returns within two of its own |
| Helper.OwnResult | hook.c:68-98 | each request is run exactly once with its own arguments, and the value returned is its own result |
| Helper.NoLostWakeup | hook.c:77-88 | a helper asleep although a request is ready is about to be signalled |
| Helper.HandsOver | hook.c:68-80 | over any run a request is handed over exactly when the requester has taken the steps before it, at most twelve, whatever the helper does |
| Helper.HelperAnswers | hook.c:82-98 | a request handed over is answered exactly when the helper has taken the steps it owed, at most fifteen, however the two sides interleave |
| Helper.RequesterReturns | hook.c:121-137 | once it is answered the requester has the result of that very run exactly when it has taken the steps it still needed, two from the poll |
| Helper.RoundTrip | hook.c:68-137 | twelve steps of the requester, fifteen of the helper and four more of the requester make the whole round: the value returned is the result of running the arguments asked for |
| Helper.ClientInv | hook.c:121-137 | every access of the requester keeps the handshake's phases |
| Helper.ServerInv | hook.c:82-98 | every access of the helper keeps them too, spurious wake-ups included |
| IoUring.BatchesSound | newlib/hook.c:305-345 | at every yield the pending count is the number of queued entries, at most 8, and the completion loop is entered only with one's entry submitted, whatever the counter's wrap |
| IoUring.Core.Enter | newlib/hook.c:312-335 | queueing an entry and running up to the first yield is one step of the protocol: submission of everything queued at the threshold, otherwise one more pending entry |
| IoUring.Core.Turn | newlib/hook.c:321-336 | a turn of the submit-wait loop is one step: it is left when the count moved or after the second yield, then submitting everything |
| IoUring.Core.SubmitAll | newlib/hook.c:315-317 | everything queued is submitted and the counters follow, modulo 65536 |
| IoUring.TwoYields | newlib/hook.c:319-336 | right after its first resumption a thread is in the completion loop with its entry submitted, or it waits once more and is there right after the next |
| IoUring.SubmitsExactly | newlib/hook.c:312-337 | a submission happens exactly when an entry arrives while eight are pending or a thread comes back from its second yield with the count unchanged; it takes everything queued, and otherwise nothing is submitted |
| IoUring.SecondOfTwo | newlib/hook.c:319-336 | in every run a thread at that place has arrived and resumed once before |

## Left out

- Device bring-up, PCI, address translation of pages, register access, statistics and the admin queue of
  `newlib/nvme.cc` are not modelled; a bounce buffer is named by its slot, and `Addressing.BuffersDisjoint` says why.
- QueuePair.QP.CheckCq: the device is quiet during one call of the class method; steps of the device between any two
  polls are in the step machine (`NvmeQueue.Apply`), of which every theorem about runs speaks.
- QueuePair.QP.AwaitSlot: the unbounded wait is modelled by any finite amount of device activity, with no slot as the
  answer if it was not enough.
- QueuePair.QP.Request: `lock` and `unlock` are not modelled; a request is submitted in one step of the machine.
- HookIo.ReadWindows: polling one request until it is complete is one step; the polls themselves are in `Machine`.
- HookIo.WriteWindows: likewise; which requests a call has seen complete when it returns is `Machine.Returns`.
- HookIo.WriteImpl: likewise.
- HookIo.ReadImpl: the loop variable must stay below the int range, as in the code; its type is unbounded here.
- Superblock.Superblock.Unlink: file records are values in a sequence field that the methods reassign, not memory
  updated in place; sharing of one record between threads is not captured.
- Superblock.Superblock.Lba: one allocation and one push are each a single atomic step; a thread stalled between the
  compare-and-swap and the slot access is not modelled.
- Superblock.Superblock.Open: an empty file name, a name longer than the record and a table without a free slot are
  excluded; in the last case the code writes outside the table.
- Superblock.Superblock.UnlinkName: an empty name is excluded; the code would match every slot, those without a name
  included, whose block count nothing has set.
- Stack.UnlinkInv: unlinking is allowed while no call is on the file; reference counts and the deferred unlink at the
  last release are not modelled beyond the mark that `Myfs.TryErase` sets.
- Machine.StepInv: a call may issue its requests without waiting between windows, which is more than the code allows.
- Exact.KeepsOthersExact: the law is about machines of every queue depth together; the run that breaks it is on a queue
  pair deeper than the number of its requests, whose unused bounce buffers hold zeros.
- Transparency.Transparent: clone with a shared address space is in `Transparency.NewThreadPhase` instead; xmm state,
  the red zone and the flags after the call are not modelled, and the stack pointer does not wrap around.
- Transparency.ChildGoesOn: the kernel's creation of the thread is not modelled; the lemma starts from a thread behind
  the raw system call, on the stack the kernel was given. The word at its top is as stored where that stack lies apart
  from the caller's and the compiled C code writes its own frame only (`Hook.FrameOnly`).
- Hook.PopBlock: instruction lengths of the hand-written code are one; only where the pieces stand matters.
- Rewriter.DisassembleAndRewrite: the decoder, `/proc/self/maps` and page protection are parameters or left out.
- IoUring.BatchesSound: the kernel's completions, slot reuse in liburing and short transfers are left out.
- LazyInit.ExactlyOnce: interleaved, sequentially consistent accesses; destruction of an object is not modelled.
- Helper.OwnResult: sequentially consistent accesses, one requester for each helper, as the thread ids provide.
- The sleep, select, epoll and futex hooks, file name parsing, dead code under `#if 0`, the older copy of the
  trampoline and the thin wrappers around the threading library are not modelled: they move no data and keep no shared
  state of the components above.
