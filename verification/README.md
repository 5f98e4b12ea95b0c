# Arunos kernel: memory, processes and storage, proved

This project models the core of the Arunos ARM kernel and proves what that core is for: every page of
RAM always belongs to exactly one owner, `exec` is all or nothing, files read from a FAT16 disk are the
files on the disk, and processes are scheduled and woken as they should be, in every run from power-on.

## What is modelled

* **Memory.** RAM is 65536 frames of 4096 bytes (256 MB). `Kalloc` keeps the two free lists as the
  kernel does, as links inside free blocks. `Vm` builds two-level ARM page tables in 1K chunks taken
  from that RAM. A ghost ledger labels every managed page and chunk; the invariants tie it to the lists,
  to the section tables and to the process table. `Walks` is the address walk with `|` and `&`.
* **Processes.** `Proc`, `Fork`, `Loader` and `Exec` are the process table, fork, the ELF loader and the
  staged program replacement. `Sched` is the process state machine as pure steps; the methods of
  `Kernels.Kernel` are proved to take exactly those steps, and `Steps` says slot by slot what each step
  does. `Runs` is what every action does to memory, and what whole runs keep. `Boot` is the path from
  power-on to the first program. `UserMemory` is what user code can reach.
* **Storage.** `Virtio` is the block driver with an abstract device that may answer, fail, scribble into
  the buffer while it works, or never answer. `Volumes`, `Directories` and `FatNames` say what a FAT16
  volume means; `Fat` is the reader. `Sectors` and `Layouts` pin these meanings to the bytes of the disk:
  which sector is which, and where every field of a boot sector, a directory entry, an ELF header and a
  program header is.
* **Console and numbers.** `Console` and `Keys` are the receive ring and the key decoder, `Printf` and
  `Numerals` the printing of numbers, `Math` the 32-step division.

The kernel runs with interrupts masked from entry to exit, so a system call or a timer tick is one
atomic step. `kernel_end` is a parameter of at most 8 MB. Section tables sit at any 16K-aligned address.
Integers are unbounded; where the C code uses 32-bit or 16-bit words the model states the wrap-around
(virtio indices, `0u - value`) or proves that nothing leaves the word (division, image and sector sums).

Words used in the table: a *slot* is an entry of the process table; slot `t` *owns* pages 0 (kernel
stack), 1 (user stack) and 2 + i (heap page i); *apart* from `t` means that every other slot's record of
pages, its section table, its view of memory and the contents of its pages are the same as before.

## Main results

* `Boot.PowerOn`: for every `kernel_end` up to the bound, every initial content of RAM, every disk and
  every sequence of user stores, ticks and system calls, the kernel invariant holds in the end and the
  processes have gone through the states of the abstract machine, starting with the shell alone in slot
  0. Between any two consecutive states memory, records, device and results are related as the action
  demands (`Runs.Follows`): a store changes one user byte, an exec starts the named program or changes
  nothing for a stated reason, a fork makes a copy, an exit gives everything back. It composes
  `Boot.Start` and `Kernels.Kernel.RunMachine`. With `Totals.PageHasOnePlace`, `Totals.ChunkHasOnePlace` and
  `Totals.Conserved` that is the ownership partition in every reachable state, with nothing lost.
  `Proc.ProcTable.TakePage` and `Vm.Vm.NewPageTable` need no check of `kalloc` results: memory never
  runs out (`PageTables.AmpleNeverEmpty`).
* `Runs.IdleUndisturbed` and `Runs.Resumed`: in every run a process that does not run keeps its registers,
  its pages and every byte in them, and finds them again as it left them when it entered the kernel.
* `Exec.ProcLoadProgram` and `Kernels.Kernel.SyscallExec`: on failure nobody can tell that anything was
  tried; on success the caller is exactly the program in the file, and every page and page table it had
  before is on a free list.
* `Fat.FatReader.FatRead`, `FatOpen` and `Volumes.GoodFileChain`: reading agrees with the concatenation
  of the chain for every fragmentation, and an opened file can be read until the device fails.
* `Sched.SleeperRun`, `Sched.BoundedWaiting`, `Sched.HaltsOnlyIdle` over all runs, on top of
  `Steps.WaitDoes`, `Steps.ExitDoes`, `Steps.ForkDoes` and `Steps.YieldDoes` for single steps.

One property holds only under a condition. `kgetch` compares NUL-terminated strings, so a NUL that comes
where the next byte of a special key is expected hides the bytes after it, and all pending bytes are taken
as one key. `Console.ReceiveBuffer.Kgetch` states what is taken and returned for every input, and
`Keys.SequenceFits` that the six-byte array of the C code is large enough exactly when at most six bytes
are pending or there is no such NUL, with an input that takes seven.

## Model

| member | source | states |
|---|---|---|
| Kalloc.Kalloc.KallocInit | kernel/memory/kalloc.c:17-29 | exactly the whole pages of the range are added to the managed pages, all free; the list in RAM is the list of free pages; pages managed before keep their contents |
| Kalloc.Kalloc.PageListPrepend | kernel/memory/kalloc.c:112-119 | the block is the new head, its first word links to the old list, and any list it is not on is intact |
| Kalloc.Kalloc.Alloc | kernel/memory/kalloc.c:32-42 | NULL exactly when no page is free; otherwise the first free page, now owned by the caller's label, and nothing in RAM changes |
| Kalloc.Kalloc.Free | kernel/memory/kalloc.c:45-48 | the page is free again and first on the list; no other page changes |
| Kalloc.Kalloc.Alloc1k | kernel/memory/kalloc.c:51-75 | NULL exactly when both lists are empty; otherwise a chunk nobody owned, splitting a page into four chunks only when the 1K list is empty |
| Kalloc.Kalloc.Free1k | kernel/memory/kalloc.c:78-81 | the chunk is free again and first on the 1K list |
| Kalloc.Kalloc.GetFreeMemorySize | kernel/memory/kalloc.c:87-106 | the walk over both lists ends and yields 1024 per free chunk plus 4096 per free page |
| Ledgers.OwnersCannotBreakLists | kernel/memory/kalloc.c:8-14 | stores into owned pages and chunks cannot damage the lists that live in free memory |
| PageTables.AmpleNeverEmpty | kernel/memory/kalloc.c:51-67 | while at most 2580 pages are used and at most 2904 chunks were ever used at once, the 4K list is not empty |
| PageTables.TotalBound | kernel/memory/vm.c:14-22 | a table set uses at most 264 sections, so eleven use at most 2904 page tables |
| Spaces.TotalAtMost | include/proc.h:29 | slots with at most 258 pages each own at most 258 pages times the number of slots |
| Walks.WalkIsIndexed | kernel/memory/vm.c:147-161 | the walk with shifts, masks and ORs equals the indexed two-level lookup for every 32-bit address, every 16K-aligned section table and any entries, whatever their type fields say |
| Walks.WalkPage | include/vm.h:18-24 | every byte of a page leads to the same byte of the frame its entry names |
| Walks.LinearWindow | kernel/memory/vm.c:14-22 | in a table set with the kernel mappings the kernel address of every byte of the kernel image and of allocatable memory leads to that byte |
| PageTables.PteFields | include/vm.h:76-82 | type, caching bits, access permissions and frame are in their own bits of a page-table entry |
| PageTables.Unmapped | kernel/memory/vm.c:139 | the type field is 0 and the rest of the word is kept |
| Walks.MappedResolves | kernel/memory/vm.c:65-83 | after a mapping the walk leads every page of the range to its frame, and every other page that was mapped to where it led before |
| Vm.Vm.Resolve | kernel/memory/vm.c:147-161 | the walk in the table set of a slot gives the frame of the indexed entry and the offset |
| Vm.Vm.NewPageTable | kernel/memory/vm.c:109-115 | a zeroed chunk nobody owned; never NULL in ample memory |
| Vm.Vm.MapPage | kernel/memory/vm.c:100-128 | one page is mapped, the rest of the view is unchanged, no other table set changes its view, owned pages keep their contents |
| Vm.Vm.MapPages | kernel/memory/vm.c:65-83 | the rounded range is mapped to consecutive frames and nothing else changes |
| Vm.Vm.SetupKernelVm | kernel/memory/vm.c:51-59 | the table set maps exactly the six kernel runs |
| Vm.Vm.UnmapPage | kernel/memory/vm.c:131-140 | the type field of one entry is cleared and nothing else changes |
| Vm.Vm.FreeVmPageTables | kernel/memory/vm.c:85-94 | every page table of the set is free, other sets keep theirs and their views |
| Proc.ProcTable.TakePage | kernel/proc/proc.c:44-45 | the page is not NULL, and it is owned by exactly this slot |
| Proc.ProcTable.ProcExpandMemory | kernel/proc/proc.c:90-107 | the heap is longer by that many zeroed, mapped pages; old pages keep their contents; everybody else is apart |
| Proc.ProcTable.ProcShrinkMemory | kernel/proc/proc.c:110-128 | the last pages of the heap are given back and unmapped; everybody else is apart |
| Proc.ProcTable.ProcFree | kernel/proc/proc.c:80-87 | the slot owns no page and no page table and is UNUSED; every page and page table it had is on a free list; everybody else is apart |
| Proc.ProcTable.ProcCreate | kernel/proc/proc.c:26-77 | the first unused slot gets zeroed stacks, an empty heap and an address space of exactly kernel and stacks; NULL exactly when no slot is unused, and then nothing changes |
| Fork.CopyHeap | kernel/proc/syscall_fork.c:16-23 | the byte loop copies the whole heap and stores only into the child's heap |
| Fork.SyscallFork | kernel/proc/syscall_fork.c:5-40 | every page of the child equals the parent's, its context differs only in R0, it is READY and waits for nobody; everybody else, the parent included, is apart; -1 exactly when no slot is unused |
| Copies.ForkedMemory | kernel/proc/syscall_fork.c:16-27 | parent and child see the same byte at every user address, on disjoint pages |
| Virtio.QueueLayout | arch/versatilepb/virtio.c:58-67 | descriptors, available ring and used ring do not overlap and fit the queue, for every accepted size |
| Bits.PowerOfTwoTest | arch/versatilepb/virtio.c:58-60 | x & (x - 1) is 0 exactly for powers of two |
| Bits.AndMask | arch/versatilepb/virtio.c:100 | & with a power of two less one is the remainder, so the ring slot is the index modulo the queue size |
| Virtio.BlockDevice.BlockInit | arch/versatilepb/virtio.c:33-80 | succeeds exactly for a present device with a good queue and a non-zero 32-bit capacity; driver and device then agree on all indices |
| Virtio.BlockDevice.BlockRead | arch/versatilepb/virtio.c:87-121 | true only with the device's answer for that very sector; the indices agree again afterwards, wrap-around included; a failure is out of range, a failed request or a timeout, and after a timeout the queue is never touched again |
| Layouts.BootLayout | kernel/fs/fat.c:44-54 | for every boot sector, written field by field, the reader gets exactly those fields, and the 32-bit sector count when the 16-bit one is 0 |
| Layouts.DescribedRegions | kernel/fs/fat.c:59-65 | the root directory starts after all copies of the FAT, the data after the root directory rounded up to sectors, and the clusters are as many as fit |
| Sectors.FatInOrder | kernel/fs/fat.c:32-35 | the FAT is a row of 16-bit words and the link of a cluster is the word with its number |
| Sectors.RootInOrder | kernel/fs/fat.c:110-112 | the root directory is a row of 32-byte entries, in order |
| Sectors.ClusterInOrder | kernel/fs/fat.c:194-196 | the clusters from number 2 on are the data region cut into pieces of one cluster each, in order |
| Sectors.FileInOrder | kernel/fs/fat.c:191-210 | cluster number k of a file is the piece of the data region to which the k-th link leads |
| Sectors.ChainInOrder | kernel/fs/fat.c:27-36 | each cluster of a file is the FAT word of the one before |
| Volumes.MountableSound | kernel/fs/fat.c:38-72 | for every accepted boot sector FAT, root directory and data follow each other without overlap and fit the disk |
| Volumes.Regions | kernel/fs/fat.c:22-34 | every sector computed from a valid cluster or a root slot lies in its own region of the disk |
| Volumes.ClustersApart | kernel/fs/fat.c:194-197 | no two clusters share a data sector |
| Fat.FatReader.FatInit | kernel/fs/fat.c:38-72 | mounts exactly the FAT16 boot sectors that fit the disk, unless the device fails in this call |
| Fat.FatReader.NextCluster | kernel/fs/fat.c:27-36 | the FAT entry of a valid cluster; fails only for an invalid one or when the device fails in this call |
| FatNames.RenderKey | kernel/fs/fat.c:133-140 | every accepted name renders back to the same letters in upper case |
| FatNames.KeyRender | kernel/fs/fat.c:75-99 | every canonical 8.3 entry is the key of its own rendering |
| FatNames.SameKey | kernel/fs/fat.c:82-97 | two accepted names share a key exactly when they have equal length and at each place equal characters or the two cases of one letter |
| FatNames.KeyLetters | kernel/fs/fat.c:81-97 | every byte of a key: the characters before the first dot, then those after it, letters a to z less 32, and spaces; none is a lower-case letter |
| FatNames.PlainIs | kernel/fs/fat.c:79-93 | the accepted names, character by character |
| FatNames.RenderIs | kernel/fs/fat.c:133-140 | the characters before the padding of the name field, then a dot and those before the padding of the extension, if any |
| FatNames.ForbiddenList | kernel/fs/fat.c:91-92 | the refused punctuation is exactly that string |
| Fat.ShortName | kernel/fs/fat.c:75-99 | accepts exactly one to eight legal characters and an optional extension of one to three, and gives the padded upper-case key |
| Fat.RenderName | kernel/fs/fat.c:133-140 | the rendering of an entry, at most 12 characters |
| Directories.NextSlotIsFirst | kernel/fs/fat.c:109-122 | the next slot is regular, before any end mark, and skips no such slot |
| Directories.VisitExact | kernel/fs/fat.c:125-142 | iteration visits exactly the regular slots before the first end mark, in order and once each |
| Directories.FirstMatchIsFirst | kernel/fs/fat.c:154-157 | the match found is the first listed slot with that name; none is missed |
| Fat.FatReader.RootEntry | kernel/fs/fat.c:102-123 | with its cached sector it returns the next regular slot and its 32 bytes as read directly; fails only for a bad cursor or when the device fails in this call |
| Fat.FatReader.FatNext | kernel/fs/fat.c:125-142 | the cursor after the next regular slot and its rendered name |
| Directories.LinesExact | kernel/fs/fat.c:125-142 | repeated fat_next renders exactly the visited slots, one name each, in order |
| Layouts.EntryLayout | kernel/fs/fat.c:114-159 | name, first cluster and size are read from their own places of a directory entry; it is regular exactly when it is not deleted and neither the label nor the directory bit is set |
| Volumes.GoodFileIs | kernel/fs/fat.c:158-171 | a non-empty file is accepted exactly when the first so many links lead through valid clusters and the next one to an end mark |
| Volumes.GoodFileChain | kernel/fs/fat.c:158-171 | an accepted non-empty file has exactly its size divided by the cluster size, rounded up, valid and pairwise distinct clusters, then an end mark |
| Fat.FatReader.FatOpen | kernel/fs/fat.c:144-174 | opens the first visited file of that name and refuses it exactly when its size and its chain disagree, unless the device fails in this call |
| Volumes.SectorRun | kernel/fs/fat.c:194-204 | bytes of one sector of cluster number k are the file's bytes from k cluster sizes on |
| Fat.FatReader.FatRead | kernel/fs/fat.c:176-212 | true only with bytes [offset, offset + length) of the concatenated clusters, for any file record; on an opened file an in-range read fails only if the device fails in this call |
| Layouts.SegmentLayout | include/proc.h:86-95 | for every program header, written as its eight words, the loader gets exactly those fields |
| Layouts.HeaderLayout | include/proc.h:68-84 | for every ELF header, written field by field, the loader gets exactly those fields |
| Layouts.HeaderAccepted | kernel/proc/syscall_exec.c:16-23 | the accepted ELF headers, byte by byte |
| Layouts.ProgramLayout | kernel/proc/syscall_exec.c:16-24 | a file with an accepted header and these program headers where it says is read as exactly these segments |
| Layouts.EntersIs | kernel/proc/syscall_exec.c:40-42 | the entry lies in the file part of a loadable segment whose execute bit is set |
| Elf.ImageAt | kernel/proc/syscall_exec.c:47-68 | each byte of the image is that of the last segment covering it, its file byte or 0 beyond them, and 0 where no segment is |
| Elf.EndIsLargest | kernel/proc/syscall_exec.c:38-39 | the end is the largest end of a loadable segment |
| Elf.PagesForEnd | kernel/proc/syscall_exec.c:46 | the heap has exactly as many pages as the end needs |
| Images.StartRegisters | kernel/proc/syscall_exec.c:70-73 | user mode, the entry, the top of the user stack and zeros, each in its own place of the context |
| Images.ChildRegisters | kernel/proc/syscall_fork.c:29-33 | the child's registers are the parent's but for R0, which is 0 |
| Elf.EndInImage | kernel/proc/syscall_exec.c:32-39 | no accepted segment reaches beyond 1 MB |
| Loader.CheckSegments | kernel/proc/syscall_exec.c:26-45 | accepts exactly when every header is acceptable and the entry lies in the file part of an executable segment; the end is the largest segment end |
| Loader.PieceLength | kernel/proc/syscall_exec.c:52-60 | every piece is non-empty and stays inside one page, the segment and its file part, so the loop ends |
| Loader.LoadSegment | kernel/proc/syscall_exec.c:48-67 | page by page through the page table, the heap image becomes the old one with the segment put over it; fails only when the device fails in this call |
| Loader.LoadElf | kernel/proc/syscall_exec.c:9-75 | the heap is the fold of the PT_LOAD segments over zeros and the context starts at the entry; fails only if the device fails in this call or the file is not a program; everybody else is apart |
| Copies.ProgramMemory | kernel/proc/syscall_exec.c:46-68 | the program sees at every heap address the byte of its image |
| Swap.ExchangedPages | kernel/proc/syscall_exec.c:94-111 | after two slots exchange everything, every page again has exactly one owner and no owned page is forgotten |
| Swap.ExchangedTables | kernel/proc/syscall_exec.c:94-99 | after the exchange of section entries every chunk is again the page table of exactly one section |
| Exec.SwapSlots | kernel/proc/syscall_exec.c:94-111 | the 4096 entries and the fields are exchanged and the kernel invariant holds; nobody else is touched |
| Exec.StageProgram | kernel/proc/syscall_exec.c:87-93 | a failed load gives the spare slot back: every process is as it was and as much memory is free |
| Exec.ProcLoadProgram | kernel/proc/syscall_exec.c:78-114 | all or nothing: on failure every process is as it was and as much memory is free, and the cause is a device failure in this call, no spare slot or no such program; on success the caller holds exactly the new program with empty stacks, every page and page table it had is on a free list, the staging slot is unused |
| Kernels.Kernel.FetchName | kernel/proc/syscall_exec.c:121-131 | the name is the string at the caller's address, every byte of which is a heap or stack address; refused exactly when there is no such string of at most 12 characters |
| Kernels.Kernel.SyscallExec | kernel/proc/syscall_exec.c:116-138 | the outcome of loading the named program, and the scheduler's state is unchanged: no wakeup is lost or made up |
| Kernels.Kernel.SyscallExit | kernel/proc/syscall_exit.c:5-33 | the exit step of the state machine; everything the slot had is on a free list and everybody else is apart |
| Kernels.Kernel.SyscallWait | kernel/proc/syscall_wait.c:7-17 | for the pid of a slot in use the caller's record says SLEEPING and that pid, and no other record changes; for any other pid nothing changes; the wait step of the state machine |
| Steps.WaitDoes | kernel/proc/syscall_wait.c:9-14 | a wait for a process that is there makes the caller SLEEPING until that very process exits, touches no other slot and dispatches the next ready one; any other wait does nothing |
| Steps.ExitDoes | kernel/proc/syscall_exit.c:16-30 | the caller's slot is UNUSED, exactly its waiters become READY, everybody else stays as they are |
| Steps.ForkDoes | kernel/proc/proc.c:33-40 | the first unused slot becomes READY for one more process and nothing else changes; without one nothing happens |
| Steps.YieldDoes | kernel/proc/scheduler.c:24-42 | no process changes, and the ready slot that comes first in circular order runs |
| Kernels.Kernel.SyscallYield | kernel/proc/syscall_yield.c:5-9 | the yield step of the state machine |
| Kernels.Kernel.SyscallDir | kernel/ksyscall.c:8-16 | prints the rendered names of the root directory in order and returns 0; only a device failure in this call stops it before the end, with -1 |
| Kernels.Kernel.ForkCurrent | kernel/proc/syscall_fork.c:5-40 | the fork step of the state machine together with the copied child |
| Scheduler.FindReady | kernel/proc/scheduler.c:24-42 | the loop finds the first ready slot after the index, and is back at the index after a full turn without one |
| Kernels.Kernel.Reschedule | kernel/proc/scheduler.c:24-49 | dispatches that slot, or stops when none is ready |
| Kernels.Kernel.UserStore | kernel/proc/proc.c:98-103 | a store by user code anywhere reaches at most its own heap and user stack; no other process, list or page table can tell |
| UserMemory.UserAccess | include/vm.h:61-64 | the pages user code may write are exactly the heap and the user stack of its own slot |
| Kernels.Kernel.RunMachine | kernel/ksyscall.c:31-37 | after any sequence of user stores, ticks and system calls the kernel invariant holds, the processes have gone through the steps of the state machine, and every action did to memory, records, device and result what it should |
| Kernels.Kernel.Act | kernel/ksyscall.c:31-37 | one action from any state in order: a store, or the registers saved and then exactly the effect of the call, for every call |
| Runs.ExecStarts | kernel/proc/syscall_exec.c:116-138 | with a string that names a program, a spare slot and a device that does not fail, the caller becomes that program |
| Runs.IdleUndisturbed | kernel/proc/save_context.S:1-55 | in every run a process that does not run keeps its registers, its pages and their contents |
| Runs.Resumed | kernel/proc/proc.c:131-142 | in every run a process finds the registers and the memory it had when it entered the kernel, unless the call ended or replaced it |
| Sched.StepInv | kernel/proc/syscall_wait.c:7-17 | every step keeps: the running process is the READY slot at the round-robin index, and every sleeper waits for a process that is still there |
| Sched.SleeperRun | kernel/proc/syscall_exit.c:16-30 | in every run a sleeper sleeps while the very process it waits for lives, and becomes READY exactly in the step where that process exits |
| Sched.BoundedWaiting | kernel/proc/scheduler.c:24-42 | a process that stays READY is dispatched within ten calls of schedule |
| Sched.PickNearest | kernel/proc/scheduler.c:27-41 | a ready slot is found whenever there is one, and never passed |
| Sched.HaltsOnlyIdle | kernel/proc/scheduler.c:44-48 | the panic is reached exactly when no slot is READY |
| Boot.StartMemory | kernel/init.c:17-19 | the memory below 32 MB suffices to build the kernel's address space, and leaves ample memory |
| Boot.StartProcesses | kernel/init.c:20-23 | an empty process table over exactly the pages from 2 MB beyond the kernel up to 256 MB satisfies the invariant |
| Boot.Start | kernel/init.c:15-40 | power-on ends with the shell alone, dispatched in slot 0, and the kernel invariant, or stops because the disk failed or holds no such program |
| Boot.PowerOn | kernel/init.c:15-40 | after power-on and any sequence of actions the kernel invariant holds and the state is the one the abstract machine reaches from the dispatched shell, and every action on the way did what it should |
| Totals.PageHasOnePlace | kernel/memory/kalloc.c:8-14 | every managed page is on the 4K list, cut into chunks, or exactly one page of exactly one slot |
| Totals.ChunkHasOnePlace | kernel/memory/vm.c:109-120 | every chunk is on the 1K list or exactly one page table of exactly one table set |
| Totals.Conserved | kernel/memory/kalloc.c:87-106 | free bytes plus owned pages plus owned page tables is the managed memory |
| Math.UnsignedDivmod | lib/math.c:10-31 | exact quotient and remainder for every 32-bit numerator and non-zero denominator, with no overflow in the shift; all ones and the numerator for 0 |
| Numerals.DigitsValue | lib/stdio/vsprintf.c:16-22 | the digits have no leading zero and stand for the number |
| Numerals.DigitsUnique | lib/stdio/vsprintf.c:16-22 | no other numeral without leading zeros stands for the number |
| Printf.Output.Number | lib/stdio/vsprintf.c:16-22 | the recursion ends and emits the numeral of the number |
| Printf.Output.Signed | lib/stdio/vsprintf.c:43-49 | %d shows the value of every int, the least one included |
| Printf.Output.Hexadecimal | lib/stdio/vsprintf.c:51-54 | %x emits 0x and the hexadecimal numeral of the number |
| Printf.ReadBack | lib/stdio/vsprintf.c:16-22 | the printed characters, read by their ASCII codes, give back the number in every base up to 16 |
| Printf.TextInjective | lib/stdio/vsprintf.c:21 | different numerals print differently |
| Console.ReceiveBuffer.UartInterruptHandler | kernel/console.c:98-112 | the bytes are appended in order and dropped only while 15 are pending |
| Console.ReceiveBuffer.Kgetch | kernel/console.c:67-87 | removes the oldest bytes only, in order; for every input it takes and returns what the decoder says, all pending bytes when a NUL comes where a special key goes on |
| Keys.SequenceFits | kernel/console.c:69-80 | the six bytes of the sequence array are enough exactly when at most six bytes are pending or no NUL comes where a special key goes on |
| Keys.KeyPrefixIs | kernel/console.c:128-145 | the strings on which the loop goes on are exactly the beginnings of special keys |
| Keys.DecodeExact | kernel/console.c:128-163 | one to three bytes are taken, and a special key is returned exactly when they are its sequence |

## Left out

- Entry code, context save and restore, TLB and control registers: a kernel entry is the saved registers and one step, a dispatch is the new `current_process`.
- UART, timer and interrupt-controller registers, PCI probing, memory barriers: only the virtio queue, the request and an abstract device are kept.
- Section-table entries are values in the model, not words of RAM; the words of page tables are in RAM.
- The frames of the kernel image, of `process_vm` and of `kernel_vm` are not modelled as contents of RAM.
- Vm.Vm.MapPages: only for the sections that the kernel, the stacks and a heap of 1 MB use; the bound on page tables counts them, and no caller maps any other.
- Vm.Vm.MapPage: only for those sections, like MapPages.
- Vm.Vm.UnmapPage: only in a section that has a page table, as its caller ensures; elsewhere the C code stores through whatever base address is there.
- Proc.ProcTable.ProcExpandMemory: only up to 256 heap pages, the 1 MB limit of the loader; no caller asks for more.
- Kalloc.Kalloc.Free: only for pages that are in use, as the callers ensure; freeing a page twice is not modelled.
- Kalloc.Kalloc.Free1k: only for chunks that are in use, as the callers ensure.
- Kernels.Kernel.RunMachine: `putch`, `getch`, `getpid` and unknown call numbers are one action that changes nothing, without their results; the console is a separate object.
- Kernels.Kernel.UserStore: user code only stores bytes; loads, faults and instruction fetches change nothing in the model.
- The `wait` result and exit codes: `child_return_value` is never set.
- Deadlock: `wait` allows waiting for oneself or in a circle, so only safety and bounded waiting are claimed.
- Console.ReceiveBuffer.Kgetch: the sequence array is unbounded, so what the C code does after the sixth byte is not modelled; `Keys.SequenceFits` says when that happens.
- Printf.Output.Number: `%s`, `%c`, `%%` and the loop over the format string are not modelled.
- Fat.ShortName: a null name pointer is not modelled; names are given without their NUL.
- `kputch`, `gets`, monitor commands, backtraces, status output, plain string helpers and user programs.
