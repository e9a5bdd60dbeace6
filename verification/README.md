# Raynix: what the kernel and mkfs are meant to guarantee

A Dafny model of the stateful parts of Raynix, with proofs about every run of them.

- **virtio disk driver** (`VirtioQueue`, `VirtioRing`, `VirtioMachine`, `VirtioProof`, `VirtioTheorems`,
  `VirtioStatus`, `VirtioCalls`, `VirtioDriver`). The routines that run under `vdisk_lock` are methods on the
  arrays of `struct disk`, each proved equal to a function on queue values. Those functions are the effects of a
  step machine in which any number of processes, the interrupt handler and a device that completes requests in any
  order interleave. The queue is the split virtqueue of section 2.6 of VIRTIO 1.1 with 16-bit free-running indices;
  what the device reads at a head is section 5.2.6.
- **scheduling** (`Spinlock`, `ProcMachine`, `ProcProof`, `ProcTheorems`, `ProcSleep`, `ProcFlow`, `Sleeplock`).
  Interrupt masking as a class, the lock word under atomic swaps, and a machine of CPUs and processes with one step
  between any two accesses to a lock: `scheduler`, `enter_sched`, `give_up`, `sleep`, `wakeup`, and interrupts, on
  the scheduler's stack and on those of processes. Any channels may share a condition lock, as those of the disk
  driver do. `ProcSleep` shows that going to sleep is one step and that a wakeup under the condition lock looks
  like one, `ProcFlow` what each call has done by its return; sleep locks are a second machine on top that takes
  them so.
- **buffer cache** (`BioSpec`, `BioCache`, `BioMachine`, `BioProof`, `BioTheorems`). The linked ring with its
  pointers is a class proved against functions on a list; a machine of interleaved clients uses the same functions.
- **page tables** (`VmTables`, `VmMemory`, `VmHardware`, `Bits`). Page-indexed memory changed in place by `kalloc`,
  `free_page`, `walk`, `map` and `find_pa`, related to a flat map from page numbers to entries, and that map to the
  hardware's own walk of the words in memory; section 4.4 of the RISC-V Privileged Architecture, version 20211203.
- **mkfs** (`MkfsSpec`, `MkfsProof`, `MkfsTheorems`, `MkfsKeeps`, `MkfsLayout`, `MkfsPlaces`, `MkfsReader`,
  `MkfsImage`). The bytes of the image file, changed by the methods of a class at offsets computed in 32 bits, on a
  host of either byte order; what such a file means as inodes and byte sequences; the laws of that meaning; and
  that it is what a reader of the raw bytes finds.
- **byte loops** (`Tools`): `memmove` and `set_memory` on one byte array.

`Common` holds three shared types, `Arith` and `Bits` the arithmetic the rest needs. A parameter of the system is
a constant with a type and no value, so that every proof is about all its values: `NUM` divides 65536 and is at
least 3; `BSIZE` is a multiple of 512 in the driver; `LockOf` is any assignment of condition locks to channels; for
mkfs `Sensible` says what its assertions, its layout and its 32-bit offsets ask of `BSIZE`, `NDIRECT`, `IPB`,
`FSSIZE`, `NINODES` and `LOGSIZE`, with `IBLOCK(i)` = i / IPB + inodestart and `struct dinode` as in xv6.

## Repairs

The code does not compile in places. Where it does not do what its comments say, the model follows the comments:

- `kernel/proc.c:41`, `:71`, `:104-106` copy `struct cpu` and `struct proc`; they are references here. After the
  switch in `enter_sched` (`:79-80`) the CPU is the one the process has resumed on.
- `kernel/proc.c:81-83`, a TODO where a panic is meant, falls through to the caller with the wrong number of locks;
  the model stops there (`Panic`).
- `kernel/sleeplock.c:14` waits while `holding` is 0, which is what `sleeplock_init` sets; it waits while the lock
  is held here. Line 28 is about `sllk`.
- `kernel/spinlock.c:25-36`: the first push records whether interrupts were already off and turns them off, as the
  comment at `:9-14` says; the code records "off" on every first push and sets the wrong bits. It also reads tp and
  `lock_layer` (`:23-24`) before it masks, so that an interrupt there could move the process to another CPU; the
  push is one step here.
- `kernel/bio.c:58-69` never moves the cursor; it goes to `prior`. `:101-103` leaves the old first node's `prior`
  alone; it is set. `:118-125` leaves the last buffer's sleep lock out. `:47-48` takes the sleep lock under
  `cache.lock`, which `enter_sched`'s layer check would reject if it had to sleep; `cache.lock` is dropped first.
  `bget` without a buffer to give falls off its end; it returns null here.
- `kernel/vm.c:57` takes `size` in pages, as `:54-56` says. `kernel/kalloc.c:33` is about `page_link`;
  `kernel/kalloc.c:37` fills page 0 when the list is empty, and so does the model.
- `virtio_disk.c`'s `blockno` and `disk` are `bio.c`'s `block_no` and `handled2disk`.

## Where a law needs a condition

- `ialloc` does not look where the inode table ends: its inode is in the table exactly for numbers below
  ninodeblocks * IPB (`MkfsLayout.TableExact`), and that very number has the bitmap block for its own
  (`MkfsLayout.TableEnds`). `MkfsImage.Image.Build` requires the calls to stay below.
- `sb.inodestart` and `sb.bmapstart` are stored in RISC-V byte order and used as the host loads them. On any host
  the inodes and the bitmap are where the layout says exactly when the two numbers read the same there
  (`MkfsPlaces.PlacedExact`): always on a little-endian host, never on a big-endian one with a log shorter than 65790
  blocks (`MkfsPlaces.HostsPlaced`), where with 1024-byte blocks the inodes go over the superblock and the bitmap
  over the boot block (`MkfsPlaces.BigEndianOverlays`). `Iappend` and `Build` of `MkfsImage.Image` ask for it.
- `sec * BSIZE` reaches every sector of the image and the first one past it exactly when the image is smaller than
  4 GiB (`MkfsPlaces.SeekExact`), which `Sensible` asks for; `MkfsPlaces.SectorAliases` has geometries where sectors
  coincide.
- `iappend` gets through exactly when the file stays within MAXFILE blocks and the image has the blocks it needs
  (`MkfsProof.IappendFits`).
- A sector number reaches the disk as blockno * (BSIZE / 512) exactly when that fits 32 bits; any other request
  starts inside a lower block (`VirtioTheorems.SectorExact`), as block 2^31 does with 1024-byte blocks
  (`VirtioTheorems.SectorWraps`). Calls are made for blocks that fit.

## Model

| member | source | states |
|---|---|---|
| VirtioQueue.AllocDescSpec | kernel/virtio_disk.c:155-166 | alloc_desc takes the lowest free descriptor and one only, or leaves the set alone when nothing is free |
| VirtioQueue.Alloc3Spec | kernel/virtio_disk.c:199-213 | all or nothing: three distinct free descriptors and no other change, or, exactly when fewer than three are free, the queue as it was apart from wakeups |
| VirtioQueue.UndoTwo | kernel/virtio_disk.c:206-210 | the roll-back of two descriptors restores the queue and wakes the free channel twice |
| VirtioQueue.FreeChainFrees | kernel/virtio_disk.c:184-197 | on a linked path of busy distinct descriptors free_chain stops, frees exactly the path and reaches neither panic |
| VirtioQueue.FreeChainOnlyFrees | kernel/virtio_disk.c:168-197 | the converse: without a panic it walked such a path |
| VirtioQueue.DecodeFormat | kernel/virtio_disk.c:235-269 | round trip: the device decodes from the descriptors the request that was formatted |
| VirtioQueue.SlotOfIndex | kernel/virtio_disk.c:272-277 | the ring slot of the 16-bit index is the slot of the unbounded count |
| VirtioRing.PutKeepsPending | kernel/virtio_disk.c:272 | while fewer than NUM entries are pending, writing the next slot leaves all of them as they were |
| VirtioRing.BumpAppends | kernel/virtio_disk.c:277 | raising the 16-bit index appends the entry to those pending, across wrap-around |
| VirtioRing.ConsumeHead | kernel/virtio_disk.c:312-323 | raising the reader's index takes away the oldest entry and no other |
| VirtioRing.EqualIffEmpty | kernel/virtio_disk.c:312 | the two indices are equal exactly when nothing is pending |
| VirtioMachine.FirstSectorIs | kernel/virtio_disk.c:218 | the sector is blockno times sectors per block |
| VirtioProof.StepKeeps | kernel/virtio_disk.c:215-327 | every step of a process, the handler or the device keeps the invariant on locks, chains, flags, rings and history |
| VirtioTheorems.NeverFaults | kernel/virtio_disk.c:172-175 | no run reaches a panic, a null buffer or a chain the device cannot follow |
| VirtioTheorems.Linearizable | kernel/virtio_disk.c:215-292 | every completed call took effect exactly once, between call and return, and the effects in order are those of a plain disk |
| VirtioTheorems.PerformedOnce | kernel/virtio_disk.c:215-292 | the one transfer of a completed call has its sector, direction and data |
| VirtioTheorems.ReplayIsLastWrite | kernel/virtio_disk.c:215-292 | a disk that performs a history of block transfers holds the last write to each block |
| VirtioTheorems.ReadsSeeLastWrite | kernel/virtio_disk.c:215-292 | a read leaves in the buffer what the last write before it wrote; the disk holds the last write to every block |
| VirtioTheorems.SectorExact | kernel/virtio_disk.c:218 | the 32-bit sector is the block's own exactly when that fits; otherwise the request starts inside a different, lower block |
| VirtioTheorems.SectorWraps | kernel/virtio_disk.c:218 | with two sectors to a block, the request for block 2^31, which fits the 32-bit block number, goes to block 0 |
| VirtioTheorems.DescriptorsConserved | kernel/virtio_disk.c:226-289 | with vdisk_lock free, every descriptor is free or in exactly one waiting call's chain, and free + 3 * waiting = NUM |
| VirtioTheorems.NoStrandedWaiter | kernel/virtio_disk.c:226-286 | a sleeper for descriptors implies fewer than three free; a sleeper on a buffer has its flag set and its request with the device |
| VirtioTheorems.PublishOverwritesNothing | kernel/virtio_disk.c:271-277 | the ring slot about to be written is none the device has still to read |
| VirtioTheorems.DrainedExactly | kernel/virtio_disk.c:312-324 | the handler's indices are equal exactly when no completion is waiting |
| VirtioTheorems.HandlerCompletesOne | kernel/virtio_disk.c:314-323 | each round completes one waiting call, the one whose buffer info[] recorded, and touches no other flag |
| VirtioTheorems.CleansAfterDrain | kernel/virtio_disk.c:283-289 | a call goes on to free its chain only after its own completion was drained |
| VirtioStatus.UnansweredRejected | kernel/virtio_disk.c:261 | a request just formatted has a status that is not success, and the handler would not accept it |
| VirtioStatus.StatusIsAnswer | kernel/virtio_disk.c:261-317 | in every run a head's status is not 0 until the device has performed its request, and 0 from then until it is drained |
| VirtioStatus.InfoExact | kernel/virtio_disk.c:265-288 | info[i] names a buffer exactly while a call on it has its formatted request at head i |
| VirtioStatus.HandlerLeavesWhenDrained | kernel/virtio_disk.c:294-326 | the handler goes in with the lock, back to its test after each completion, and leaves exactly when none is waiting |
| VirtioCalls.CallAsAsked | kernel/virtio_disk.c:215-220 | a call is for the buffer, direction, block and data its caller gave |
| VirtioCalls.ReturnsInBuffer | kernel/virtio_disk.c:283-292 | what a call returns with is in the caller's buffer, and the lock is given up |
| VirtioCalls.CallGoesOn | kernel/virtio_disk.c:220-291 | each step goes on to one place: to sleep exactly with fewer than three free descriptors or the flag set, else onward; the lock is held exactly in the critical sections |
| VirtioDriver.Disk.constructor | kernel/virtio_disk.c:144-146 | zeroed queue memory with all descriptors free |
| VirtioDriver.Disk.AllocDesc | kernel/virtio_disk.c:155-166 | in place, the function whose properties AllocDescSpec states |
| VirtioDriver.Disk.FreeDesc | kernel/virtio_disk.c:168-182 | frees a busy descriptor, zeroes it and wakes, or panics |
| VirtioDriver.Disk.FreeChain | kernel/virtio_disk.c:184-197 | the loop ends and equals the function of FreeChainFrees |
| VirtioDriver.Disk.Alloc3Desc | kernel/virtio_disk.c:199-213 | the loop with its roll-back equals the function of Alloc3Spec |
| VirtioDriver.Disk.FormatRequest | kernel/virtio_disk.c:235-269 | the stores give the queue DecodeFormat is about, and set b->disk alone |
| VirtioDriver.Disk.Publish | kernel/virtio_disk.c:271-277 | ring entry, then index |
| VirtioDriver.Disk.FinishRequest | kernel/virtio_disk.c:288-289 | forgets the buffer and frees the chain |
| VirtioDriver.Disk.Drain | kernel/virtio_disk.c:312-324 | the loop equals the function of DrainsPending |
| VirtioDriver.DrainsPending | kernel/virtio_disk.c:312-324 | draining clears the flag of, and wakes, exactly the recorded buffers of the pending entries, in ring order |
| Spinlock.NestingRestores | kernel/spinlock.c:9-51 | however pushes and pops nest, interrupts are off while one is open and back as they were when none is |
| Spinlock.CpuMask.PushInterOff | kernel/spinlock.c:21-40 | one layer more; the outermost records the state and turns interrupts off |
| Spinlock.CpuMask.PopInterOff | kernel/spinlock.c:42-51 | one layer less; the outermost restores |
| SpinWord.OneInside | kernel/spinlock.c:54-83 | at most one CPU is between acquire and release, and a swap gets through exactly when none is |
| SpinWord.SwapExact | kernel/spinlock.c:54-83 | a swap gets its CPU in exactly when none is in, and changes nothing otherwise; release leaves none in |
| ProcProof.StepKeeps | kernel/proc.c:39-142 | every step of every CPU keeps the invariant on stacks, locks, states, scans and masks |
| ProcTheorems.StacksApart | kernel/proc.c:39-101 | no two CPUs run on one stack; a stack not running is parked in enter_sched or is the scheduler waiting for just that process |
| ProcTheorems.RunningIsCurrent | kernel/proc.c:49-62 | a process whose lock is free is RUNNING exactly when one CPU has it as cur_proc |
| ProcTheorems.ReleasesWhatIsHeld | kernel/proc.c:54-96 | each release, on either side of swtch, frees a lock this CPU holds, and no other step frees one |
| ProcTheorems.DueReleaseGoesThrough | kernel/proc.c:54-138 | wherever a CPU is about to release a lock it can do so at once: the lock is held and there is a layer to pop |
| ProcTheorems.SwitchesWithOwnLockOnly | kernel/proc.c:68-84 | past enter_sched's check a process holds nothing but its own lock |
| ProcTheorems.NoLostWakeup | kernel/proc.c:103-142 | when wakeup ends in a caller that held the condition lock throughout, no process is asleep on the channel, whichever channels share the lock |
| ProcTheorems.WokenIsParked | kernel/proc.c:107-116 | the process wakeup makes runnable is on no CPU, and is parked inside sleep on its channel |
| ProcTheorems.InterruptsFollowProcess | kernel/proc.c:74-80 | interrupts are off on a CPU holding a lock; without locks a process runs with them as it, or an interrupt on its stack, set them, on any CPU |
| ProcSleep.SleepersExact | kernel/proc.c:103-142 | every step changes the set of sleepers of every channel exactly so: the one whose step gives up the condition lock joins, the one a scan for the channel looks at leaves, nothing else happens |
| ProcSleep.SleepIsOneStep | kernel/proc.c:122-132 | the step that joins the sleepers is the one that gives up the condition lock, held until then; before it the process was asleep nowhere |
| ProcSleep.SleeperRunsNothing | kernel/proc.c:68-132 | a sleeper is parked inside sleep, or on its way there under its own lock |
| ProcSleep.WakeupIsOneStep | kernel/proc.c:103-119 | while a wakeup under the condition lock runs, that lock stays with its CPU and the sleepers only become fewer, whatever other CPUs do; at its end there are none |
| ProcFlow.SleepReturnsHolding | kernel/proc.c:121-142 | whatever steps are made, a process in sleep(chan, lock) stays in it until it is back in its own code on a CPU that holds lock, or panics in enter_sched; likewise give_up |
| ProcFlow.CallsBegin | kernel/proc.c:87-128 | give_up and sleep start under the process's own lock, wakeup at the first process |
| ProcFlow.CallAdvances | kernel/proc.c:87-142 | each step of a process in give_up or sleep gets it further, until it is back |
| ProcFlow.StateMoves | kernel/proc.c:49-132 | a state changes only so: RUNNABLE to RUNNING by a scheduler that takes it, RUNNING to RUNNABLE or SLEEPING by itself, SLEEPING to RUNNABLE by a wakeup of its channel |
| ProcFlow.SchedulerGoesRound | kernel/proc.c:39-66 | the scheduler looks at all processes in turn, for ever, and runs each it finds RUNNABLE |
| ProcFlow.SwitchExact | kernel/proc.c:68-84 | enter_sched switches, to the scheduler behind its own switch, exactly when the process holds its own lock and no other |
| ProcFlow.WakeupLooksAtAll | kernel/proc.c:103-119 | a wakeup gets past a process only by testing it, or as its caller, and ends only past the last |
| ProcFlow.InterruptReturns | kernel/proc.c:74-80 | an interrupt comes back to where it came in with everything as it was |
| ProcFlow.LocksExact | kernel/proc.c:49-141 | each step takes just the free lock it is there to take or gives up the one it is there to give up |
| Sleeplock.StepKeeps | kernel/sleeplock.c:11-40 | every step keeps the invariant on the inner lock, the flag and the sleepers |
| Sleeplock.OneHolder | kernel/sleeplock.c:11-40 | at most one process is between acquire_sleep and release_sleep |
| Sleeplock.NoStrandedSleeper | kernel/sleeplock.c:14-40 | with the inner lock free, a sleeper implies that somebody holds the lock |
| Sleeplock.LockIsAtomic | kernel/sleeplock.c:11-40 | every step changes who owns the lock only so: one store takes it when nobody has it, one gives it up by its owner |
| Sleeplock.CallGoesOn | kernel/sleeplock.c:11-40 | each step goes on to one place: to sleep exactly while the lock is held, else onward; the release wakes all sleepers |
| Sleeplock.HoldingExact | kernel/sleeplock.c:26-38 | the flag is set exactly while a process owns the lock |
| BioSpec.Hit | kernel/bio.c:38-53 | the first buffer of the list with the block, or none has it |
| BioSpec.Victim | kernel/bio.c:55-69 | the last buffer of the list without references, or all are referenced |
| BioSpec.ToFrontPerm | kernel/bio.c:94-104 | moving a place to the front keeps the list a permutation of the buffers |
| BioCache.LinkAll | kernel/bio.c:109-128 | binit's loop links the array into a ring with next and prior inverse |
| BioCache.BufCache.constructor | kernel/bio.c:109-128 | the list is the array in order, sleep locks free, contents untouched |
| BioCache.BufCache.FindCached | kernel/bio.c:40-53 | following next finds the first hit |
| BioCache.BufCache.FindUnused | kernel/bio.c:58-69 | following prior finds the last unreferenced buffer |
| BioCache.BufCache.Bget | kernel/bio.c:34-70 | a hit gains a reference; a miss recycles; null when all are referenced, and nothing changed |
| BioCache.Unlink | kernel/bio.c:94-104 | the six pointer stores take a buffer out of the ring and put it behind the head |
| BioCache.Relinked | kernel/bio.c:94-104 | those pointers are a ring again, in the new order |
| BioCache.BufCache.Brelease | kernel/bio.c:86-107 | one reference less; at zero the buffer goes to the front, links intact |
| BioCache.BufCache.Bread | kernel/bio.c:72-79 | the buffer comes back valid for the block, with a reference more; its data is its own if it was so before, else the disk's; no other buffer changes |
| BioCache.BufCache.Bwrite | kernel/bio.c:81-84 | the buffer's block on disk becomes its data |
| BioProof.StepKeeps | kernel/bio.c:34-107 | every step of interleaved clients keeps counts, names, locks, uniqueness, age and agreement with the disk |
| BioProof.HitUnique | kernel/bio.c:40-53 | a hit never makes a second active buffer for a block, not even on never-used buffers, whose identity is zero |
| BioTheorems.ReadsLastWrite | kernel/bio.c:72-107 | a buffer from bread, unchanged or written back, holds what the last bwrite of its block wrote |
| BioTheorems.OneUserPerBlock | kernel/bio.c:34-52 | two processes that have the same block from bread are one |
| BioTheorems.ListAndIdentity | kernel/bio.c:86-128 | the list is a permutation of the buffers, and no block has two buffers with a reference or valid data |
| BioTheorems.RecyclesOldest | kernel/bio.c:55-69 | a miss takes an unreferenced buffer whose last release is oldest, and fails exactly when there is none |
| BioTheorems.CallGoesOn | kernel/bio.c:34-107 | each step of bread, bwrite and brelease goes on to the next, and to the disk exactly when the data is not valid |
| BioTheorems.ReleaseGoesThrough | kernel/bio.c:86-107 | brelease always finds its buffer in the list with a reference to give up |
| VmTables.FillBytes | kernel/kalloc.c:17-39 | every byte of a filled page is the value |
| VmTables.IndexIs | kernel/vm.c:21-24 | the shifted and masked indices are the base-512 digits of the 27-bit page number |
| VmTables.PackUnpack | kernel/vm.c:30-37 | packing a page address into an entry and unpacking gives it back, whatever the flags |
| VmTables.SameSlot | kernel/vm.c:41-42 | two addresses have the same leaf slot exactly when their page numbers agree |
| VmTables.EntryMeans | kernel/vm.c:27-34 | the V bit is set exactly where there is a child table, and the entry is its address |
| VmTables.PopKeeps | kernel/kalloc.c:26-39 | taking the first free page keeps list, tree and flat map |
| VmTables.PushKeeps | kernel/kalloc.c:17-24 | giving a page back keeps list, tree and flat map |
| VmTables.AttachKeeps | kernel/vm.c:32-37 | linking a zeroed page as a table keeps the tree well-formed and the flat map as it was |
| VmTables.StoreKeeps | kernel/vm.c:69-72 | a leaf store keeps list and tree and changes one entry of the flat map |
| VmTables.GrewOn | kernel/vm.c:19-43 | what two calls of walk add to the tables adds up, page for page |
| VmTables.TablesBound | kernel/vm.c:66-75 | n pages take at most (n + 510) / 512 + 1 last-level and (n + 262142) / 262144 + 1 middle tables |
| VmTables.MapTranslates | kernel/vm.c:45-76 | every address of the range translates to the frame given for its page, with the permissions; other pages keep their entry |
| VmTables.LeafHasPath | kernel/vm.c:19-43 | where there is a leaf table there is the whole path to it |
| VmTables.MappedHasPath | kernel/vm.c:45-52 | a page with an entry, mapped whenever, has its tables, so that find_pa on it changes nothing |
| VmTables.NullTableShared | kernel/vm.c:32-37 | with no page left page 0 becomes a table: what is stored in it is lost at the next missing table, and both entries go through it |
| VmTables.PagesConserved | kernel/kalloc.c:17-39 | tables and free pages together are conserved, and are the same frames |
| VmMemory.Memory.FreePage | kernel/kalloc.c:17-24 | the page, filled with 1s and linked to the old first one, becomes the first of the list; no other page changes |
| VmMemory.Memory.Kalloc | kernel/kalloc.c:26-39 | the first page leaves the list, filled with 5s; of an empty list null, page 0 being filled |
| VmMemory.Memory.EmptyVmCreate | kernel/vm.c:146-154 | a root table from the list, under which every page number is unmapped and the hardware faults on every address |
| VmMemory.Memory.Descend | kernel/vm.c:27-38 | one level: follows a valid entry and changes nothing, or adds exactly the missing table; without a page, page 0 zeroed and linked |
| VmMemory.Memory.Walk | kernel/vm.c:19-43 | returns the leaf slot of the page number; adds exactly the missing tables, from the list; changes no entry; touches nothing when none was missing |
| VmMemory.Memory.FindPa | kernel/vm.c:45-52 | translates by the flat map, and leaves it as it was; where the leaf table exists it changes nothing at all |
| VmMemory.Memory.Map | kernel/vm.c:54-76 | the n pages get their entries, all others keep theirs, and exactly the tables on the way are added; the hardware reaches every byte of the range |
| VmMemory.Memory.MapThenFind | kernel/vm.c:45-76 | find_pa after map, on any address of the range, gives the frame asked for at the same offset, and leaves what map did |
| VmHardware.HardwareAgrees | kernel/vm.c:19-52 | the three-level walk of the words in memory translates every address as the flat map does, or faults where its entry is not valid |
| VmHardware.RangeIsReached | kernel/vm.c:54-76 | after map every address of the range leads to its byte of the frames given |
| MkfsLayout.XintBothWays | mkfs/mkfs.c:56-66 | on either byte order xint stores least significant byte first, the four bytes adding up to the value, and converts back |
| MkfsLayout.XshortBothWays | mkfs/mkfs.c:45-54 | the same for xshort |
| MkfsLayout.EncodeDecode | mkfs/mkfs.c:185-209 | an inode read from its bytes is the inode written |
| MkfsLayout.InodePlace | mkfs/mkfs.c:191-193 | an inode of the table lies inside one block of the inode region |
| MkfsLayout.InodesApart | mkfs/mkfs.c:191-193 | two inodes share no byte |
| MkfsLayout.WriteInodeMeans | mkfs/mkfs.c:185-196 | winode sets one inode and changes no other inode and no block outside the table |
| MkfsLayout.TableExact | mkfs/mkfs.c:221-231 | an inode number's block is in the table exactly for numbers below ninodeblocks * IPB |
| MkfsLayout.TableEnds | mkfs/mkfs.c:221-231 | the first number past the table has the bitmap block for its own |
| MkfsImage.LayoutFits | mkfs/mkfs.c:20-27 | the regions follow one another; the table has room for NINODES inodes and the bitmap a bit for every block |
| MkfsReader.InodeArray | mkfs/mkfs.c:191-207 | the table is one array: every inode is at inodestart * BSIZE + i * sizeof(struct dinode) |
| MkfsReader.InodeBytes | mkfs/mkfs.c:184-209 | an inode is what the bytes there say, each field least significant byte first |
| MkfsReader.ReaderFinds | mkfs/mkfs.c:252-294 | whoever reads a file from the raw bytes, through its inode and indirect block, gets its contents and then its end |
| MkfsImage.BitmapByte | mkfs/mkfs.c:240-247 | bit x of the bitmap is bit x % 8 of byte x / 8 of block bmapstart |
| MkfsImage.SuperReads | mkfs/mkfs.c:97-104 | each word of the superblock in block 1 is the size or the start it is named for, and the magic number is in host order |
| MkfsPlaces.SeekExact | mkfs/mkfs.c:175-182 | the 32-bit offsets of all sectors and of the one past the end are right exactly for an image below 4 GiB |
| MkfsPlaces.SectorAliases | mkfs/mkfs.c:175-182 | geometries with all else in order where a sector falls on the superblock, and the end on the boot block |
| MkfsPlaces.WriteSector | mkfs/mkfs.c:175-182 | writing a sector's bytes changes that sector of the image and no other |
| MkfsPlaces.PlacedExact | mkfs/mkfs.c:102-103 | on any host, inodes and bitmap are written at the byte offsets of the layout exactly when inodestart and bmapstart read the same in its byte order |
| MkfsPlaces.HostsPlaced | mkfs/mkfs.c:102-103 | so on every little-endian host, and on no big-endian one with a log shorter than 65790 blocks |
| MkfsPlaces.BigEndianOverlays | mkfs/mkfs.c:191-247 | there, with 1024-byte blocks and starts below 256, inodes are written from the boot block on and the bitmap on the boot block |
| MkfsPlaces.InodeWritten | mkfs/mkfs.c:184-196 | the bytes winode writes set one inode of what the image means |
| MkfsImage.Image.constructor | mkfs/mkfs.c:93-115 | on any host an image that is zero but for the superblock in block 1, with each field in its place |
| MkfsImage.Image.Wsect | mkfs/mkfs.c:175-182 | the buffer's bytes at the 32-bit offset, the file growing to hold them; in a full image one sector |
| MkfsImage.Image.Rsect | mkfs/mkfs.c:211-218 | the bytes there, or a short read past the end; of the image exactly its sectors |
| MkfsImage.Image.Rinode | mkfs/mkfs.c:198-209 | for any number and host, the inode in the bytes at the offset computed; in the table, the inode as the image means it |
| MkfsImage.Image.Winode | mkfs/mkfs.c:184-196 | for any number and host, exactly those bytes change; in the table, one inode of what the image means |
| MkfsImage.Image.Ialloc | mkfs/mkfs.c:220-232 | the next number, its bytes set to an empty inode wherever they are; in the table, for an empty file |
| MkfsImage.Image.Locate | mkfs/mkfs.c:267-286 | finds or allocates the block of a file block, and the indirect block, or stops where the program does |
| MkfsImage.Image.Iappend | mkfs/mkfs.c:252-294 | the loop over pieces equals the function of IappendRefines, and stops exactly where that has no value |
| MkfsImage.SetBit | mkfs/mkfs.c:243-244 | or-ing in a bit sets that bit and no other, within a byte |
| MkfsImage.Image.Balloc | mkfs/mkfs.c:234-248 | bit x is set exactly for x < used in the block written at the start the host reads; nothing else changes |
| MkfsImage.Image.Build | mkfs/mkfs.c:117-170 | on a host that places the regions, after the calls of main a reader of the raw bytes finds in each file what was appended to it, each inode has its type and one link, the superblock is as it was, and bit x of the bitmap is set exactly for metadata and for blocks some file reaches |
| MkfsProof.ChunkJoin | mkfs/mkfs.c:287-289 | two pieces written one after the other within a block are one piece |
| MkfsProof.Grows | mkfs/mkfs.c:267-286 | under the invariant a block is refused exactly when the file or the image is full, and else gets an address nobody else has |
| MkfsProof.IappendRefines | mkfs/mkfs.c:252-294 | reading the file back gives the old bytes and then the new ones; every other file is unchanged; the invariant holds again |
| MkfsProof.IappendFits | mkfs/mkfs.c:265-289 | iappend gets through exactly when the length fits MAXFILE and the image has the blocks needed |
| MkfsTheorems.ChunkingIrrelevant | mkfs/mkfs.c:157-158 | appending p and then q gives the same image, block for block, as appending both at once, for every split |
| MkfsTheorems.IallocRefines | mkfs/mkfs.c:220-232 | a new empty file of that type with one link; no other file changes |
| MkfsKeeps.IappendOnlyFile | mkfs/mkfs.c:252-294 | iappend changes nothing of any inode but one's size and addresses, and no metadata block |
| MkfsKeeps.RunTyped | mkfs/mkfs.c:117-159 | after any run each inode has the type it was allocated for and one link; the metadata blocks are as at the start |
| MkfsTheorems.RunRefines | mkfs/mkfs.c:117-159 | after any run of ialloc and iappend each file is the concatenation of what was appended to it |
| MkfsTheorems.RunAccounts | mkfs/mkfs.c:106-168 | freeblock - nmeta is the sum over files of data and indirect blocks, and a block is below freeblock exactly when it is metadata or reached |
| MkfsTheorems.RewrittenKeeps | mkfs/mkfs.c:245-247 | writing the bitmap changes no file |
| Tools.CopiedBytes | kernel/tools.c:13-34 | the destination is the old source and every other byte is as it was |
| Tools.Memmove | kernel/tools.c:13-34 | right for every overlap, both directions |
| Tools.SetMemory | kernel/tools.c:4-11 | the range is the value as a byte, the rest is untouched |
| Bits.OrBits | mkfs/mkfs.c:244 | bit by bit, or is or |
| Bits.MaskIsMod | kernel/vm.c:24 | masking with 2^n - 1 is the remainder modulo 2^n |

## Left out

- `kernel/pipe.c` and the transmit ring of `kernel/uart.c`: the slot written and the slot read disagree with the empty test, so that a queue law would be about other code.
- `kernel/log.c`: only `begain_op` exists.
- Device registers, PLIC, CLINT, CSR access, `kernel/trap.c`, assembly: `swtch` is one transfer of control.
- Fences: steps are sequentially consistent.
- Liveness and fairness: safety, and termination of loops, only.
- A failing device: requests complete in any order, with status 0, and a transfer moves a whole block in one step.
- The lock around kalloc's free list: calls into `VmMemory` come one at a time.
- `kvm_init`, `fatal_pa_map`, `init_proc_kstack`, `kalloc_init`: bytes where pages are meant, and address ranges not yet right. Proofs start from any well-formed pool.
- `copy_in`, `copy_out`: they translate once per call, and the latter passes `memmove`'s arguments the other way round.
- VmHardware: permission, A and D bits of an entry, superpages and the reserved high bits of an address are not looked at.
- Several page tables at once: the tree of one root is followed; `Grew` says that pages of other trees are not touched.
- In mkfs: arguments, host files, directory entries as such, and the rounding of the root directory's size.
- The headers param.h, fs.h, stat.h, virtio.h and buf.h: their constants and `struct dinode` are parameters, as said above.
- VirtioMachine and Sleeplock take `sleep` as one step that gives up the lock and blocks, and `wakeup` as one step; ProcSleep shows of `kernel/proc.c`, for any number of channels under one lock, that they are.
- BioMachine takes a whole sleep lock and a whole `virtio_disk_rw` as one step each; that rests on `Sleeplock.OneHolder` and `Sleeplock.LockIsAtomic`, and on `VirtioTheorems.Linearizable`. The machines are not composed into one.
- Spinlock.CpuMask.PushInterOff: one step, as said under Repairs.
- VirtioDriver.Disk.Drain: for the completions there when the loop begins; one that arrives during it is a step of VirtioMachine.
- MkfsSpec.Block: sector buffers and the `indirect` array in iappend are values assigned whole, not arrays on the stack.
- MkfsImage.Image.Locate: for stored addresses inside the image, as in every image mkfs builds (`ReadyStored`).
- MkfsImage.Image.Build: calls that stay inside the inode table, on a host that places the regions, as said above.
- MkfsImage.Image.Iappend: on a host that places the regions; requires the invariant of an image built by mkfs itself, under which no file block lies in the inode table; on an arbitrary image the loop could overwrite inodes.
- VmMemory.Memory.FreePage: for page-aligned addresses, which is how it is called; the code fills from the rounded-up address but links the address given.
- VmMemory.Memory.EmptyVmCreate: for a pool with a page left; the one root followed is not there yet.
- VmMemory.Memory.Walk: for as many free pages as tables are missing; with fewer, the code takes page 0 for a table, as `Descend` says of one level, and mappings are lost (`NullTableShared`).
- VmMemory.Memory.FindPa: the same.
- VmMemory.Memory.Map: the same; for a range inside the 39-bit space and physical addresses that do not wrap 64 bits; the permission is in the ten flag bits.
- VmMemory.Memory.MapThenFind: as Map.
- VmMemory.Memory.SetMemory: a page at a time, by its effect; the byte loop itself is Tools.SetMemory.
- Tools.SetMemory: lengths below 2^31, beyond which the int counter overflows.
