# Verified models of the OShm kernel changes and tools

OShm is a modified Linux 5.15.178 with a key/value table per thread group, a ramfs that writes back to
disk and a task_struct shown to user space through the vDSO, plus GPTfs, a FUSE file system. These
Dafny modules model the parts whose correctness covers whole runs, and prove what those parts promise.

| module | models |
|---|---|
| ProcessTree | the links copy_process makes and the stackless walk_process_tree |
| CopyProcess | the acquisitions of copy_process and its ladder of cleanup labels |
| DupMmap | the copy of the list of memory areas |
| StackCache | the per-CPU cache of kernel stacks, as a step system |
| Vfork | the vfork completion, as a step system |
| SockLock, WriteMemory | the socket lock with its backlog, and sk_wmem_alloc, as step systems |
| SockMemory, SockTimeout | page accounting of protocols, and socket timeouts |
| KvStore, KvInterleaving | the key/value table, and every interleaving of its calls |
| RamfsFlush | the atomic write-back of a ramfs file, with its crash points |
| SendMmsg, SocketModules | batched sending, and the creation, pairing, accept and release of sockets |
| NommuPages | contiguous pages for mappings without an MMU |
| Vtask | the vtask, vvar and vdso areas and the pointer user space computes |
| GptPaths, GptFs | the paths and the file system of GPTfs |
| Wrappers | optional values and results |

Step systems have a state, an `Enabled` and an `Apply`, an inductive invariant, and a theorem over every
run. Calls into code outside the model are parameters: any answer is allowed that the comments do not
rule out. Where the code updates a structure behind a pointer and nothing can alias it, the methods pass
the structure as a value (`before`, `k0`) and return the new one.

Some promises do not hold of the code as it stands; for these the exact condition is proved.

- fork: a failure after the key/value tables are allocated loses them, and the failure of that allocation
  returns without any cleanup, losing the other block if only one of the two failed (`CopyProcess.CopyProcess`).
- ramfs: a path so long that the target name is cut down to dots makes the temporary file the target
  (`RamfsFlush.NamesCollide`, `RamfsFlush.CollisionDamages`).
- sockets: when the module that owns the operations is going away, `__sock_create` drops the protocol
  socket without releasing it (`SocketModules.SockCreate`).
- sendmmsg: a protocol that rewrites the address, or a security module with a positive answer, makes the
  shortcut differ (`SendMmsg.ShortcutAgrees`).
- timeouts: setting the value read back can change it at 0, in the last second before the cutoff, and at
  tick rates that do not divide a million (`SockTimeout.StableExactly`).
- no-MMU: the file size stays raised when the pages cannot be allocated (`NommuPages.Expand`).
- vtask: a failure of get_unmapped_area is not noticed (`Vtask.FailureIsNotSeen`), and threads see the
  task of whichever thread touched a page first (`Vtask.PointerReaches`).
- GPTfs: growing a file by truncate, or truncating one that is not there, breaks the agreement of the
  collections (`GptFs.GPTfs.Truncate`).

`dafny verify dfyconfig.toml` checks the project.

## Model

| member | source | states |
|---|---|---|
| ProcessTree.WalkProcessTree | kvm/linux-5.15.178/kernel/fork.c:2906-2936 | for every tree any run of clones builds and every stateful visitor, the stackless walk ends and shows the visitor exactly what the recursive preorder shows, in that order, with the same verdict |
| ProcessTree.WalkTurn | kvm/linux-5.15.178/kernel/fork.c:2913-2933 | one turn of the nested loops, or the jump back into them, leaves the same visits to come and strictly less work |
| ProcessTree.PreorderVisits | kvm/linux-5.15.178/kernel/fork.c:2906-2936 | for every visitor, each leader is shown at most once and only strictly below the root; a leader is shown only if every leader strictly between it and the root was answered positively, and, unless the visitor stops the walk, whenever that is so; a visitor that is never negative is not stopped |
| ProcessTree.Climb | kvm/linux-5.15.178/kernel/fork.c:2928-2933 | going up through real_parent and group_leader lands just behind the leader come from, with the same visits to come |
| ProcessTree.EnterChild | kvm/linux-5.15.178/kernel/fork.c:2916-2922 | a positive answer puts the subtree of the child in front of the rest |
| ProcessTree.SkipChild | kvm/linux-5.15.178/kernel/fork.c:2916-2925 | a zero answer leaves the rest of the children |
| ProcessTree.LinkKeepsValid | kvm/linux-5.15.178/kernel/fork.c:2363-2443 | every clone keeps the children lists, thread lists and table sharing exact |
| ProcessTree.BuiltValid | kvm/linux-5.15.178/kernel/fork.c:2285-2309 | the tree of every run of clones is valid |
| ProcessTree.SharingIsThreadGroup | kvm/linux-5.15.178/kernel/fork.c:2291-2309 | two tasks share a key/value table if and only if they have the same group leader |
| ProcessTree.ListsAreExact | kvm/linux-5.15.178/kernel/fork.c:2363-2443 | a thread's children list holds exactly the leaders whose real_parent it is, each once; a thread list exactly its group |
| ProcessTree.TaskList.CopyProcess | kvm/linux-5.15.178/kernel/fork.c:2285-2443 | a clone that fails leaves the links alone, one that succeeds adds one task linked as the flags say; both keep validity |
| CopyProcess.CopyProcess | kvm/linux-5.15.178/kernel/fork.c:2025-2527 | for every combination of flags and failing calls: a refused or unwound fork leaves all counts, lists and locks as before, save the key/value blocks it lost; the direct return keeps everything taken so far and the one block that may have been allocated; a successful one adds exactly the child's share |
| CopyProcess.SetUpTask | kvm/linux-5.15.178/kernel/fork.c:2036-2142 | the acquisitions from dup_task_struct to delayacct_tsk_init are undone in reverse by their labels |
| CopyProcess.SetUpPolicies | kvm/linux-5.15.178/kernel/fork.c:2142-2195 | mempolicy, perf, audit and security are undone when anything later fails |
| CopyProcess.CopySemundo | kvm/linux-5.15.178/kernel/fork.c:2196-2198 | semundo is undone when anything later fails |
| CopyProcess.CopyFiles | kvm/linux-5.15.178/kernel/fork.c:2199-2201 | files are undone when anything later fails |
| CopyProcess.CopyFs | kvm/linux-5.15.178/kernel/fork.c:2202-2204 | fs is undone when anything later fails |
| CopyProcess.CopySignals | kvm/linux-5.15.178/kernel/fork.c:2205-2213 | sighand, signal and mm are undone when anything later fails |
| CopyProcess.CopyContexts | kvm/linux-5.15.178/kernel/fork.c:2214-2224 | namespaces, io and thread state are undone when anything later fails |
| CopyProcess.AttachPid | kvm/linux-5.15.178/kernel/fork.c:2226-2310 | pid and pidfd are undone when anything later fails, except at the direct return of the table allocations, where a block that one of them yielded is kept too |
| CopyProcess.LinkTask | kvm/linux-5.15.178/kernel/fork.c:2330-2478 | cgroup pins and both locks are released on every exit |
| CopyProcess.PutUndoesTake | kvm/linux-5.15.178/kernel/fork.c:2485-2504 | dropping the child's reference undoes taking it, shared or fresh |
| CopyProcess.NodeLeaves | kvm/linux-5.15.178/kernel/fork.c:2443-2448 | a fork that gets through leaves the list as it was before its node, whatever it acquired meanwhile |
| CopyProcess.NodeAlone | kvm/linux-5.15.178/kernel/fork.c:2523-2527 | the delayed-signal node leaves the list it was put on, and nothing else does |
| DupMmap.DupMmap | kvm/linux-5.15.178/kernel/fork.c:494-641 | at every exit the new list is doubly linked, holds the copies of a prefix of the parent's areas, and charges, areas and policy references are those of that list; it succeeds if and only if no call fails |
| DupMmap.CopyAreas | kvm/linux-5.15.178/kernel/fork.c:536-622 | the loop over the areas, with the same promise |
| DupMmap.CopyArea | kvm/linux-5.15.178/kernel/fork.c:541-621 | one area is linked and booked, or nothing is |
| DupMmap.Mm.LinkLast | kvm/linux-5.15.178/kernel/fork.c:604-613 | linking through pprev appends one area and keeps next and prev inverse |
| DupMmap.SkippedAndCopied | kvm/linux-5.15.178/kernel/fork.c:537-540 | pages copied are the parent's pages less the skipped ones |
| DupMmap.CopyOf | kvm/linux-5.15.178/kernel/fork.c:536-622 | exactly the areas without VM_DONTCOPY have a copy, in order |
| StackCache.EveryStackInOnePlace | kvm/linux-5.15.178/kernel/fork.c:197-296 | over every interleaving of allocations, frees, migrations and CPUs going down and up, each stack ever allocated is in exactly one slot, hand or task or is released, and nothing else is there; a released one was freed exactly once; none is handed out uncleared |
| StackCache.KeepsInv | kvm/linux-5.15.178/kernel/fork.c:197-296 | every step keeps the invariant |
| StackCache.XchgKeepsInv | kvm/linux-5.15.178/kernel/fork.c:223-240 | taking a cached stack by exchange |
| StackCache.CmpxchgKeepsInv | kvm/linux-5.15.178/kernel/fork.c:284-292 | putting a stack into an empty slot by compare-and-exchange |
| StackCache.HotFreeKeepsInv | kvm/linux-5.15.178/kernel/fork.c:197-213 | the look of the callback at a slot of a dead CPU keeps the invariant |
| StackCache.KeepsFreedOnce | kvm/linux-5.15.178/kernel/fork.c:197-296 | every step keeps it so that a stack was given to vfree once if it is released and not at all otherwise |
| Vfork.EveryRunIsSafe | kvm/linux-5.15.178/kernel/fork.c:1348-1380 | over every interleaving of any number of clone calls, killed or not: the completion is never used after kernel_clone returned, an unkilled vfork parent returns only after the child released the mm, and the wake-up is not lost |
| Vfork.KeepsInv | kvm/linux-5.15.178/kernel/fork.c:1348-1426 | every step of a parent or a child keeps the invariant |
| Vfork.ParentGetsOut | kvm/linux-5.15.178/kernel/fork.c:1361-1381 | once the child is through mm_release, in every run and whatever all others do, the parent takes a bounded number of steps to its return and can always take the next |
| SockLock.EveryRunIsSafe | kvm/linux-5.15.178/net/core/sock.c:2691-2740 | over every interleaving of lockers, fast lockers and arrivals: at most one thread is inside, the backlog is empty when nobody owns the socket, admitted packets are processed once each in arrival order, and no wake-up is lost: with slock free, no owner and a sleeper on the queue, a woken thread can go on |
| SockLock.KeepsInv | kvm/linux-5.15.178/net/core/sock.c:502-543 | every step keeps locks, queue and backlog length in agreement |
| SockLock.KeepsWaiters | kvm/linux-5.15.178/net/core/sock.c:2691-2707 | every step keeps the queue equal to the sleepers, and somebody on the way whenever they are left without an owner |
| SockLock.DrainProgress | kvm/linux-5.15.178/net/core/sock.c:2709-2740 | a step of the drain costs work and no step of another thread adds any |
| SockLock.DrainEnds | kvm/linux-5.15.178/net/core/sock.c:3275-3292 | one drain takes a number of steps fixed when it starts, whatever the producers do |
| WriteMemory.EveryRunFreesOnce | kvm/linux-5.15.178/net/core/sock.c:2217-2270 | after every interleaving the counter is the socket plus the bytes held, the first subtraction never reaches zero, and __sk_free has run once if and only if socket and buffers are all given up |
| WriteMemory.KeepsInv | kvm/linux-5.15.178/net/core/sock.c:2004-2025 | every step keeps that account |
| SockMemory.RaiseAllocated | kvm/linux-5.15.178/net/core/sock.c:2783-2867 | charge-then-check grants exactly what the limits allow and otherwise takes everything back |
| SockMemory.Schedule | kvm/linux-5.15.178/net/core/sock.c:2878-2887 | memory_allocated, the cgroup charge and the socket's forward allocation all move by the pages of the request or none does, both balances stay, and no other socket is touched |
| SockMemory.Reclaim | kvm/linux-5.15.178/net/core/sock.c:2897-2920 | the whole quanta of the amount leave all three accounts, both balances stay, and the pressure flag is only cleared, below the soft limit |
| SockMemory.RunKeepsBalance | kvm/linux-5.15.178/net/core/sock.c:2783-2921 | over every run on any sockets, memory_allocated minus the forward allocations never changes, nor does the cgroup's balance |
| SockMemory.AllOrNothing | kvm/linux-5.15.178/net/core/sock.c:2878-2887 | a request moves all three accounts by its pages, or none |
| SockMemory.OnlyForcedAboveHardLimit | kvm/linux-5.15.178/net/core/sock.c:2797-2856 | a grant above the hard limit is a stream send whose queued bytes reach the send buffer |
| SockTimeout.SetTimeout | kvm/linux-5.15.178/net/core/sock.c:381-431 | errors leave the value alone; a stored value is in range, 0 only for negative seconds, infinite only for zero or from the cutoff on |
| SockTimeout.SetThenGet | kvm/linux-5.15.178/net/core/sock.c:351-431 | below the cutoff a timeout reads back as at least what was set and, when HZ divides a million, less than one tick more |
| SockTimeout.StoredIsFinite | kvm/linux-5.15.178/net/core/sock.c:425-430 | a finite timeout is never stored as 0 or as infinite and does not overflow, at any tick rate |
| SockTimeout.StableExactly | kvm/linux-5.15.178/net/core/sock.c:351-431 | exactly when setting the value read back changes nothing |
| SockTimeout.StableForWholeTicks | kvm/linux-5.15.178/net/core/sock.c:351-431 | when HZ leaves a remainder of at most one in a million, it changes nothing if and only if the seconds are below the cutoff |
| SockTimeout.UnstableForOtherTicks | kvm/linux-5.15.178/net/core/sock.c:351-431 | at every other rate a timeout under a second can be set that changes when it is read and set again |
| SockTimeout.StoresTicks | kvm/linux-5.15.178/net/core/sock.c:425-430 | whole ticks below a second are stored as they are |
| SockTimeout.EndsAreNotStable | kvm/linux-5.15.178/net/core/sock.c:414-430 | a negative timeout reads back as no timeout, and the last second before the cutoff can turn infinite |
| SockTimeout.CompatSeconds | kvm/linux-5.15.178/net/core/sock.c:363-367 | the 32-bit layout returns the stored seconds if and only if they are below 2^31 |
| KvStore.HashIsRemainder | kvm/linux-5.15.178/kernel/kv_store.c:19-19 | masking with 0x3FF is the remainder modulo 1024, for negative keys too |
| KvStore.KvTable.WriteKv | kvm/linux-5.15.178/kernel/kv_store.c:17-42 | write_kv is the update of a plain map, or fails with the map unchanged only when a new key cannot be allocated |
| KvStore.KvTable.ReadKv | kvm/linux-5.15.178/kernel/kv_store.c:44-67 | read_kv answers what the plain map answers, telling an empty bucket from a missing key |
| KvStore.OverwriteRefines | kvm/linux-5.15.178/kernel/kv_store.c:24-29 | overwriting an entry is the map update |
| KvStore.InsertRefines | kvm/linux-5.15.178/kernel/kv_store.c:31-40 | adding in front of the bucket is the map update |
| KvInterleaving.EveryRunIsLinearizable | kvm/linux-5.15.178/kernel/kv_store.c:17-67 | every interleaving of calls, one entry looked at per step, is linearizable to a plain map |
| KvInterleaving.KeepsInv | kvm/linux-5.15.178/kernel/kv_store.c:17-67 | every step keeps the table equal to the map of the effects so far |
| RamfsFlush.CopyFileContent | kvm/linux-5.15.178/fs/ramfs/inode.c:563-633 | the chunked copy returns 0 if and only if nothing fails and no write is short; it then reproduces the source, whatever short reads occur; it touches only its file |
| RamfsFlush.FileFlush | kvm/linux-5.15.178/fs/ramfs/inode.c:674-869 | the flush succeeds if and only if nothing fails; at every crash point the target has its old content, the whole source, or is a fresh empty file; success puts the source there and leaves no temporary file; nothing else changes; and what breaks when the names coincide |
| RamfsFlush.NamesCollide | kvm/linux-5.15.178/fs/ramfs/inode.c:690-698 | the temporary name equals the target if and only if the target is cut down to dots |
| RamfsFlush.CollisionExample | kvm/linux-5.15.178/fs/ramfs/inode.c:690-698 | a directory path and a name for which they are equal |
| RamfsFlush.CollisionDamages | kvm/linux-5.15.178/fs/ramfs/inode.c:690-869 | a flush in which nothing fails and a crash point shows an empty target |
| RamfsFlush.BasenameOf | kvm/linux-5.15.178/fs/ramfs/inode.c:674-680 | the name behind the last slash |
| SendMmsg.SendMmsg | kvm/linux-5.15.178/net/socket.c:2544-2609 | the loop with the remembered address; on a trustworthy socket its states, answers, stored lengths and messages are those of asking for every message |
| SendMmsg.ShortcutAgrees | kvm/linux-5.15.178/net/socket.c:2438-2464 | the shortcut agrees on every batch from every state if and only if what is remembered is always authorised; a security module that answers 0 or an error and a protocol that leaves the address alone suffice |
| SendMmsg.ShortcutAgreesFrom | kvm/linux-5.15.178/net/socket.c:2438-2464 | agreement from any message on, given a sound memory |
| SendMmsg.SecondSlipsThrough | kvm/linux-5.15.178/net/socket.c:2447-2461 | if a refused address is remembered, a second message to it goes out unasked |
| SendMmsg.CopyHeader | kvm/linux-5.15.178/net/socket.c:2319-2368 | a name that is not NULL has a length of 1 to 128 |
| SocketModules.SockCreate | kvm/linux-5.15.178/net/socket.c:1415-1535 | creation succeeds exactly under the stated answers; every failure restores everything, except that the busy exit loses the protocol socket |
| SocketModules.CreateHeld | kvm/linux-5.15.178/net/socket.c:1466-1509 | the reference on the family's module is dropped on every path |
| SocketModules.SockRelease | kvm/linux-5.15.178/net/socket.c:642-665 | the socket is gone with its module reference, nothing else is touched, and its protocol socket is lost if and only if it had no operations |
| SocketModules.ReleasedMade | kvm/linux-5.15.178/net/socket.c:642-665 | releasing a new socket brings back the state before it |
| SocketModules.Fput | kvm/linux-5.15.178/net/socket.c:642-665 | the same through the last reference of the file |
| SocketModules.SockAllocFile | kvm/linux-5.15.178/net/socket.c:455-474 | a failed file allocation releases the socket itself |
| SocketModules.SockMapFd | kvm/linux-5.15.178/net/socket.c:477-494 | a failure gives back socket and reserved descriptor |
| SocketModules.SysSocket | kvm/linux-5.15.178/net/socket.c:1573-1599 | socket(2): one open socket, or nothing |
| SocketModules.SocketPair | kvm/linux-5.15.178/net/socket.c:1609-1699 | two open sockets, or nothing, with each socket and descriptor released once on every failing path |
| SocketModules.DoAccept | kvm/linux-5.15.178/net/socket.c:1775-1832 | accept adds a socket of the listener's module with a file, or nothing |
| SocketModules.Accept4 | kvm/linux-5.15.178/net/socket.c:1834-1862 | the same with a descriptor |
| SocketModules.SockCreateLite | kvm/linux-5.15.178/net/socket.c:1276-1303 | a socket without operations, or nothing |
| SocketModules.KernelAccept | kvm/linux-5.15.178/net/socket.c:3452-3474 | kernel accept adds a socket of the listener's module, or nothing |
| SocketModules.Close | kvm/linux-5.15.178/net/socket.c:642-665 | closing a descriptor removes its file and socket and keeps the books |
| SocketModules.Run | kvm/linux-5.15.178/net/socket.c:1415-1862 | over every run of calls with any answers, the kernel is the one the effects of the calls lead to, each module's references are the sockets whose operations it owns, no descriptor stays reserved, and the lost protocol sockets are exactly those of busy exits |
| SocketModules.Perform | kvm/linux-5.15.178/net/socket.c:1415-1862 | one call makes exactly the sockets it answers with, takes one away with all it holds, or only loses a protocol socket |
| SocketModules.EffectValid | kvm/linux-5.15.178/net/socket.c:1415-1862 | the effect of every call keeps references, files and descriptors in agreement and loses what its answers say |
| NommuPages.OrderFits | kvm/linux-5.15.178/fs/ramfs/file-nommu.c:72-89 | the order is the least whose block holds the size |
| NommuPages.Expand | kvm/linux-5.15.178/fs/ramfs/file-nommu.c:62-126 | for every size and point of failure, the attached pages are a prefix at their own indices and every other page of the block is freed exactly once |
| NommuPages.GetUnmappedArea | kvm/linux-5.15.178/fs/ramfs/file-nommu.c:202-251 | answers the first page's address if and only if the pages are there in physical order, and gives every reference back |
| NommuPages.ExpandedIsMappable | kvm/linux-5.15.178/fs/ramfs/file-nommu.c:62-251 | after expansion exactly the ranges covered by attached pages can be mapped, at the block's address plus the offset |
| Vtask.MapVdso | kvm/linux-5.15.178/arch/x86/entry/vdso/vma.c:415-491 | all three areas are mapped and the context set, or nothing changes; the lock is free again |
| Vtask.InstallAreas | kvm/linux-5.15.178/arch/x86/entry/vdso/vma.c:442-484 | a failed installation unmaps the areas before it |
| Vtask.LaidFillsRange | kvm/linux-5.15.178/arch/x86/entry/vdso/vma.c:426-476 | the areas are disjoint, adjacent and fill the requested range |
| Vtask.FailureIsNotSeen | kvm/linux-5.15.178/arch/x86/entry/vdso/vma.c:426-432 | the error test after the addition never sees a failure of get_unmapped_area |
| Vtask.FirstTouchStays | kvm/linux-5.15.178/arch/x86/entry/vdso/vma.c:242-320 | after any run of accesses a page shows the task that touched it first |
| Vtask.UserFindsVtask | kvm/linux-5.15.178/arch/x86/entry/vdso/vget_task_struct_info.c:36-46 | the base computed from the vdso data is the area's address |
| Vtask.PointerReaches | kvm/linux-5.15.178/arch/x86/entry/vdso/vget_task_struct_info.c:36-51 | for any run by any threads, exactly when the pointer plus an offset is that byte of a thread's own task |
| Vtask.SingleThreadReaches | kvm/linux-5.15.178/arch/x86/entry/vdso/vget_task_struct_info.c:36-51 | with one thread, exactly the bytes within the first five pages are reached, at task_phys plus the offset |
| Vtask.VdsoAddr | kvm/linux-5.15.178/arch/x86/entry/vdso/vma.c:505-536 | the page drawn lies above the stack and the area from it ends within the room, every such page can be drawn, and alignment only moves it up |
| GptPaths.PartsOfJoin | fuse/gptfs.py:57-72 | stripping and splitting a normalised path gives its names |
| GptPaths.PathTests | fuse/gptfs.py:51-72 | the path tests in terms of the names |
| GptFs.PathMeaning | fuse/gptfs.py:51-72 | the tests decide the shape of a path, and different paths have different strings |
| GptFs.GPTfs.constructor | fuse/gptfs.py:25-49 | the empty file system agrees |
| GptFs.GPTfs.Mkdir | fuse/gptfs.py:175-209 | adds or empties one session in all four collections |
| GptFs.GPTfs.Rmdir | fuse/gptfs.py:253-273 | leaves nothing of the session and everything else |
| GptFs.GPTfs.GetAttr | fuse/gptfs.py:141-167 | accepts exactly what exists, with the length of the content |
| GptFs.GPTfs.Readdir | fuse/gptfs.py:228-241 | lists exactly the names that getattr accepts, for every path |
| GptFs.GPTfs.Read | fuse/gptfs.py:215-226 | returns the requested slice of the content, or the error |
| GptFs.GPTfs.Write | fuse/gptfs.py:321-376 | replaces, or pads, cuts and appends; the reply becomes the output |
| GptFs.WriteAtBytes | fuse/gptfs.py:338-346 | the written content byte by byte |
| GptFs.GPTfs.Truncate | fuse/gptfs.py:286-302 | some sessions fit the four collections afterwards if and only if the file exists and is not grown; then it is cut |
| GptFs.Run | fuse/gptfs.py:141-376 | after every run of mkdir, rmdir, getattr, writes and truncates that do not grow, the API answering anything each time, the collections agree and stand for what the operations make of a plain map of sessions |
| GptFs.Perform | fuse/gptfs.py:141-376 | one operation has the effect on the sessions that it has on a plain map |
| GptFs.WriteChunks | fuse/gptfs.py:321-376 | consecutive chunks from offset 0, with any replies, leave their concatenation and the last reply |
| GptFs.ReadSlices | fuse/gptfs.py:215-226 | reading by any row of sizes gives what one read of their total gives, and everything once they cover it |
| GptFs.WriteThenRead | fuse/gptfs.py:215-376 | an input written in any chunks reads back exactly by any row of sizes |
| GptFs.SlicesJoin | fuse/gptfs.py:223-225 | consecutive reads give what one read gives |

## Left out

- CopyProcess.CopyProcess: does not promise that the key/value blocks come back, because no cleanup label frees them; the counts say how many are lost.
- SocketModules.Run: performs one call at a time; interleavings of calls on different sockets are not modelled. A file has one reference, so dup is not modelled.
- SockMemory.RaiseAllocated: does not model overflow of machine integers.
- SockLock.EveryRunIsSafe: the inline helpers of include/net/sock.h, which are not part of this model, are taken as the module's comment says, and so is wake_up; that a runnable thread is ever scheduled is left to the run.
- WriteMemory.EveryRunFreesOnce: does not model saturation of refcount_t.
- Vfork.EveryRunIsSafe: completions are taken as a lock, a count and a test; freezer, cgroup and ptrace calls change nothing here.
- StackCache.EveryStackInOnePlace: memory-cgroup charges of stacks are not modelled.
- KvInterleaving.EveryRunIsLinearizable: allocation under a spinlock is taken to answer at once; freeing the table at exit is not in the code.
- DupMmap.DupMmap: page tables, the red-black tree, the i_mmap tree and hugetlb are calls that only succeed or fail.
- RamfsFlush.FileFlush: the sync directory is a map from path to content that survives a crash up to the last completed call; resolution of symbolic links and concurrent renames are not modelled.
- SendMmsg.SendMmsg: the compat entry layout, descriptor lookup and the flags of a message other than MSG_BATCH are not modelled.
- NommuPages.GetUnmappedArea: asks for a length that is not zero and does not wrap when rounded up to pages, which mmap makes sure of.
- Vtask.MapVdso: takes a success of get_unmapped_area.
- Vtask.VdsoAddr: align_vdso_addr is any function that moves a page up to a page; the hint does not count the vtask pages, so the area may end past the room by their size.
- GptFs.GPTfs.Write: the call to the model's API answers any bytes each time and does not raise, so the error file stays empty; times and modes are not modelled.
- GptFs.GPTfs.Readdir: does not model the order of entries.
- GPTfs create, chmod, chown and rename, which the FUSE layer restricts or refuses.
- Exit and reparenting of processes, ptrace, signal delivery, RCU grace periods, audit and perf hooks.
- socket_count and set_thread_socket_attrs: a counter without a matching decrement.
- Socket options and ioctls, fs/proc/array.c, ramfs mount options and file-mmu.c: wide and shallow.
- nccl, tcpdump, edk2 and the ACPI message driver: benchmarks, wrappers and printing.
