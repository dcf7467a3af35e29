# libumem, modelled and proved in Dafny

libumem is a slab allocator. A cache cuts spans of memory into chunks, hands
chunks out as buffers, and keeps freed buffers in magazines: in per-thread bins
and magazines, in restartable-sequence slots, in a magazine pair per CPU, and on
striped depot lists. This project models one cache with all those layers, and
the smaller protocols around it, and proves what they promise in every run.

## How the model is laid out

- **Slab layer.** `SlabLayer` has the state of a cache's slabs and every
  critical section on it. `SlabInvariants` proves what each section keeps, over
  every run. `SlabCache.dfy` is the code in place: loops over the slab list, the
  reclaim walk and the drain, each equal to its description. `AllocatedHash` is the table
  of allocated addresses, `ReclaimDelay` the timing of reclaim.
- **Magazine layers.** `MagazineState` says who can hold buffers and magazine
  shells. `CpuSteps`, `RseqSteps`, `ReturnSteps`, `ResizeSteps`, `ThreadSteps`
  and `SlabSteps` are the critical sections of each layer as atomic steps; a
  thread that drops a lock leaves its private magazine or buffer in an
  operation in flight. `MagazineRuns` takes any number of CPUs, threads, depot
  stripes and operations in any interleaving. `DepotScan` and `CpuCode` are the
  depot search and the loops on a CPU's pair as code.
- **Geometry.** `P2Math` has the power-of-two macros on 64-bit words,
  `SlabGeometry` the layout chosen for a cache, `SlabCreate` the carving of a
  slab, `HashScale` the size of the hash table, `SizeClasses` the size classes.
- **Protocols.** `UpdateList`, `LogRing`, `MallocTags`, `BootstrapRegistry`,
  `HookRegistry`, `BreakEngine`, `HashPartition`.
- `Collections` and `Arithmetic` are helpers.

A magazine's slots above its round count keep stale values, and its shell keeps
its own capacity across a magazine resize, as in the code. Guards of steps are
the code's own tests; that indices stay inside the shell is proved, not assumed.
In `MagazineRuns` a step may happen at more moments than in the code (a stale
magazine is drained after `cc_lock` is dropped, a lock is released between the
turns of a loop), so every run of the code is a run of the model. The batch
operations are runs of the single ones.

## Where the code does less than it says

Each of these has a concrete case and an exact condition below.

- An update requested of a cache being worked on is acted on in a round of its
  own before the cache goes Inactive only if the round in progress does not
  already have that flag (the comment at umem.c:220-224 says always):
  `UpdateList.RequestFate`, `UpdateList.SecondReapAbsorbed`.
- Idle slabs are destroyed no earlier than twice the reclaim delay exactly when
  doubling the delay does not wrap 32 bits, or the delay is 2^32 - 1:
  `ReclaimDelay.DelayExact`, `ReclaimDelay.GoesEarly`.
- Registering a hook structure again is safe exactly when no thread is inside
  it and no unregister of it is waiting; otherwise an unregister can return too
  early: `HookRegistry.RegisterExact`, `HookRegistry.RegisteredInUse`.
- A walk leaves out a hook registered throughout exactly when 65535 threads are
  inside the hook as the walk comes to it: `HookRegistry.WalkExact`,
  `HookRegistry.WalkMisses`.
- A second free of a pointer is refused except for four size words, each the
  one that the free pattern completes to a magic, and then exactly when the
  object that magic names passes the ownership tests again:
  `MallocTags.DoubleFreeExact`, `MallocTags.DoubleFreeAccepted`.
- The new hash table size is the one meant exactly up to 3b + 4 < 2^32, since
  the shift is an int: `HashScale.SizeExact`, `HashScale.SizeWraps`. Below that
  a rescale that is asked for may change nothing and be asked for again:
  `HashScale.StillAsksExactly`, `HashScale.StillAsks`.
- Removing a size above the largest class writes past the table exactly when it
  has no free slot: `SizeClasses.OverrunsExactly`, `SizeClasses.OverrunHappens`.
- The test for room for an embedded slab header does not see its own sum wrap:
  `SlabGeometry.EmbeddedExact`, `SlabGeometry.EmbeddedWraps`. The firewall
  layout has no overflow test: `SlabGeometry.FirewallExact`,
  `SlabGeometry.FirewallWraps`.
- A log record of no bytes on a CPU that has logged nothing is given NULL:
  `LogRing.RecordInChunk`, both directions and the case itself.
- The cached span test is exact only behind the hull test:
  `MallocTags.CachedNeedsHull`, `MallocTags.CachedExact`.

## Model

| member | source | states |
|---|---|---|
| SlabInvariants.TakeKeeps | umem.c:1988-2130 | taking a buffer hands out one not outstanding, adds exactly it to the outstanding ones, and keeps every slab invariant |
| SlabInvariants.AllocKeeps | umem.c:2021-2069 | the slab chosen has a free buffer and is never one being reclaimed |
| SlabInvariants.LinkTakeKeeps | umem.c:2071-2130 | linking a created slab and taking from it keeps every invariant |
| SlabInvariants.CreateKeeps | umem.c:1852-1958 | a new private slab changes neither the outstanding buffers nor any invariant |
| SlabInvariants.DestroyKeeps | umem.c:1967-1983 | giving a private slab back loses no outstanding buffer |
| SlabInvariants.LookupExact | umem.c:2136-2180 | the slab lookup finds exactly the outstanding buffers, each in its own slab, hashed or not |
| SlabInvariants.FreeKeeps | umem.c:2136-2224 | a refused address changes nothing; an outstanding one, and nothing else, stops being outstanding, whether or not empty slabs are kept |
| SlabInvariants.CollectKeeps | umem.c:5285-5340 | the reclaim walk keeps every invariant and hands nothing out |
| SlabInvariants.DestroysOnlyIdle | umem.c:5319-5337 | the walk unlinks only slabs that are empty, CLEAN and idle for the threshold |
| SlabInvariants.PublishKeeps | umem.c:5345-5380 | when the lock is retaken every collected slab is still linked, RECLAIMING and empty |
| SlabInvariants.RescaleKeeps | umem.c:5118-5162 | rescaling keeps the table equal to the outstanding addresses |
| SlabInvariants.DrainKeeps | umem.c:5404-5455 | after the drain exactly the slabs with buffers out are linked, nothing outstanding changes and every invariant holds |
| SlabInvariants.DrainEmpties | umem.c:5404-5455 | a cache with nothing outstanding is left with no linked slab and a count of 0 |
| SlabInvariants.ReportExact | umem.c:5428-5431 | the reference counts the drain adds up for its report are the number of outstanding buffers |
| SlabInvariants.RunKeeps | umem.c:1852-2224 | in every state of every run: freelist plus refcnt is the chunk count, buftotal is the chunks of the linked slabs, refcnt > 0 iff ACTIVE, slabs before cache_freelist full or idle, the table exact |
| AllocatedHash.InsertAdds | umem.c:2110-2117 | insertion adds one bufctl, in its own bucket, and changes no other |
| AllocatedHash.RemoveDeletes | umem.c:2146-2159 | unlinking removes exactly the bufctls with that address |
| AllocatedHash.FindExact | umem.c:2146-2159 | a lookup finds the bufctl of an address that has one |
| AllocatedHash.RescaleKeeps | umem.c:5145-5158 | rehashing into any number of buckets keeps the set of bufctls, each in its own bucket |
| AllocatedHash.HashTable.Rehash | umem.c:5118-5162 | the nested loops in place do what Rescale says |
| ReclaimDelay.DelayExact | umem.c:5319-5337 | every slab outlives twice the delay iff the doubled delay does not wrap, or the delay is 2^32 - 1 |
| ReclaimDelay.GoesEarly | umem.c:5319-5337 | for every other delay a concrete slab is destroyed early |
| SlabCacheCode.SlabCache.Alloc | umem.c:1988-2130 | the search and take in place equal the description and hand out one new buffer |
| SlabCacheCode.SlabCache.LinkAndTake | umem.c:2071-2130 | the created slab is linked and taken from as described |
| SlabCacheCode.SlabCache.Free | umem.c:2136-2224 | the free in place equals the description, for every address |
| SlabCacheCode.SlabCache.ReclaimBegin | umem.c:5285-5340 | the backward walk that ages, unlinks and collects equals the one-step description |
| SlabCacheCode.SlabCache.ReclaimEnd | umem.c:5345-5380 | publishing CLEAN in place equals the description and loses nothing |
| SlabCacheCode.WalkIsCollect | umem.c:5285-5340 | the result of the whole walk is the filtered list, the aged slabs and the reclaim list |
| SlabCacheCode.DrainIsWalk | umem.c:5421-5443 | the forward walk, unlinking one slab at a time, subtracting its chunks and moving cache_freelist only off it, gives the drained list, position and count |
| SlabCacheCode.SlabCache.DrainSlabs | umem.c:5404-5456 | the code in place: no slab it meets is RECLAIMING, exactly the idle linked slabs are given back, the number reported is right, and with nothing out no slab stays linked |
| CpuSteps.TakeKeeps | umem.c:3868-3893 | popping the loaded magazine stays inside it and gives a buffer the application does not hold |
| CpuSteps.PutKeeps | umem.c:4152-4166 | pushing on the loaded magazine stays inside it and loses nothing |
| CpuSteps.SwapKeeps | umem.c:3895-3902 | at every exchange of the pair both assertions of umem_cpu_reload hold |
| CpuSteps.InstallPair | umem.c:3910-3919 | a depot magazine can be loaded: the assertions hold, the pair stays well formed, its rounds are all of it or none |
| CpuSteps.PrevIsWhole | umem.c:4183-4193 | the shell displaced is exactly empty or exactly full, as the list it goes to requires |
| CpuSteps.FreshKeeps | umem.c:4195-4227 | a shell allocated with the lock dropped is a new one |
| CpuSteps.StepKeeps | umem.c:3861-4240 | every step of the CPU layer accounts for every buffer and shell |
| RseqSteps.DetachKeeps | umem.c:3378-3410 | the detached magazine and its count pass whole to the caller |
| RseqSteps.AttachKeeps | umem.c:3378-3410 | a commit loses and duplicates nothing |
| RseqSteps.AbortKeeps | umem.c:3378-3410 | an abort leaves the new magazine with the caller and returns the old one |
| RseqSteps.StepKeeps | umem.c:3378-3460 | so does every step of the reload, under any migrations |
| ReturnSteps.ClassifiedSame | umem.c:3176-3199 | a returned magazine goes whole to the full list iff it is current, offered as full and exactly full; otherwise everything in it is drained; the clamp never cuts |
| ReturnSteps.NextRoundGives | umem.c:3138-3146 | one turn of each draining loop frees one live round and keeps the rest |
| ReturnSteps.FinishedEmpty | umem.c:2920-2936 | a drained shell has nothing left in it |
| ReturnSteps.ReapKeeps | umem.c:3621-3665 | a reaped magazine is destroyed with exactly the rounds its list promises |
| ReturnSteps.StepKeeps | umem.c:2337-2395 | every step of a magazine's way back accounts for every buffer |
| ResizeSteps.PurgeKeeps | umem.c:5021-5060 | a purged CPU's two magazines are destroyed with their own counts |
| ResizeSteps.MagtypeKeeps | umem.c:5094-5111 | the magtype changes only while no CPU has a magazine |
| ResizeSteps.EnableKeeps | umem.c:5065-5079 | enabling gives each CPU the current size |
| ThreadSteps.RefillKeeps | umem.c:4525-4585 | a refill indexes the magazine by its own capacity and gives up an empty one |
| ThreadSteps.FlushStartKeeps | umem.c:4846-4865 | a flush hands the loaded magazine over with its count |
| ThreadSteps.FlushInstallKeeps | umem.c:4866-4890 | the new magazine takes the buffer, inside its own capacity |
| ThreadSteps.StepKeeps | umem.c:4448-4600 | every step of the per-thread cache accounts for every buffer and shell |
| SlabSteps.FreeKeeps | umem.c:2136-2224 | a buffer that reaches the slab layer is always one it has out |
| MagazineRuns.RunKeeps | umem.c:3784-4353 | every state of every interleaving of all layers satisfies the invariant |
| MagazineRuns.ChunkInOnePlace | umem.c:1988-2224 | in every run a chunk is on its slab's freelist and held nowhere, or held in exactly one place |
| MagazineRuns.HeldIsChunk | umem.c:1988-2224 | whatever any layer or the application holds is an outstanding chunk of some slab |
| MagazineRuns.NoDoubleIssue | umem.c:3784-3927 | no allocation by any layer returns a buffer the application holds, and it is then the application's alone |
| MagazineRuns.ShellInOnePlace | umem.c:2438-2490 | no magazine shell is ever owned twice |
| MagazineRuns.ReloadOwner | umem.c:3378-3410 | after a commit only that slot owns the new magazine, full or empty against its own capacity; after an abort only the caller |
| MagazineRuns.FullListIsFull | umem.c:3151-3174 | every slot of every magazine on a full list, stale shells included, is a distinct outstanding buffer |
| MagazineRuns.PairsOk | umem.c:3747-3775 | in every run cc_magsize is 0 or the current size, both shells have that capacity, the previous one is absent, exactly empty or exactly full |
| MagazineRuns.ReloadsAsserted | umem.c:3755-3758 | the assertions of umem_cpu_reload hold wherever any run reaches it |
| DepotScan.DepotAlloc | umem.c:2964-3084 | the search returns a magazine of the current size, or leaves every list it could lock empty or rid of a stale head; nothing is lost |
| DepotScan.OffsetExact | umem.c:3042-3066 | the scan comes to every other stripe exactly once |
| CpuCode.CpuCache.Alloc | umem.c:3861-3927 | the loop ends, takes one buffer out of the stock, and gives up only with the pair empty and the depot exhausted |
| CpuCode.CpuCache.AllocBatch | umem.c:4008-4062 | the buffers given are taken out of the stock; a short batch leaves the pair empty |
| CpuCode.CpuCache.Free | umem.c:4147-4240 | whatever other threads do to the pair, the depot and the magazine size while the lock is dropped, the loop ends and the buffer joins what was there when the lock was last retaken, unless the layer is off or no shell can be had |
| CpuCode.CpuCache.Reload | umem.c:3748-3775 | called only where its assertions hold |
| UpdateList.AppendRing | umem.c:1112-1118 | linking before the root keeps one circular list and adds the cache at its tail |
| UpdateList.DetachRing | umem.c:1168-1171 | unlinking keeps one circular list without that cache |
| UpdateList.AddKeeps | umem.c:1095-1133 | a request makes an Inactive cache Work Requested and adds to the flags of any other |
| UpdateList.RemoveKeeps | umem.c:1139-1179 | a pass of a remover blocks on a cache being worked on, else leaves it Inactive |
| UpdateList.BeginKeeps | umem.c:5582-5594 | the worker takes the first cache, with every flag requested of it |
| UpdateList.FinishFlags | umem.c:5610-5620 | after a round exactly the work newly requested is left, and is the next round |
| UpdateList.RunKeeps | umem.c:205-230 | at every release of the lock each cache is Inactive, Work Requested on one well-formed list, or Active with some work flag |
| UpdateList.RequestFate | umem.c:5593-5620 | a flag requested during a round is in the next round iff it is not in this one |
| UpdateList.SecondReapAbsorbed | umem.c:5593-5620 | a run where a second request is given no round of its own |
| UpdateList.NoLostWakeup | umem.c:1146-1163 | a blocked remover always has NOTIFY set or a broadcast pending, and is woken when the cache goes Inactive |
| UpdateList.RepairStep | umem_fork.c:261-287 | one turn of the child's repair makes an Active cache a valid Work Requested one |
| UpdateList.RepairKeeps | umem_fork.c:258-289 | the whole repair leaves a valid state where all unfinished work is requested again |
| UpdateList.Updates.AddUpdate | umem.c:1095-1133 | the code in place |
| UpdateList.Updates.RemoveUpdates | umem.c:1139-1179 | the code in place; done means Inactive |
| UpdateList.Updates.BeginRound | umem.c:5582-5594 | the code in place |
| UpdateList.Updates.EndRound | umem.c:5610-5622 | the code in place |
| UpdateList.Updates.RepairChild | umem_fork.c:258-289 | the loop over all caches requests all unfinished work again |
| LogRing.EnterKeeps | umem.c:1498-1529 | the CPUs' chunks and the idle ones stay a permutation of all chunks |
| LogRing.RecordInChunk | umem.c:1508-1527 | a record is inside its CPU's chunk iff it is not an empty one on a fresh CPU |
| LogRing.RecordsApart | umem.c:1498-1529 | records of two CPUs share no byte |
| LogRing.RecordStays | umem.c:1498-1529 | a record stays byte for byte as written until its chunk is taken back into use |
| LogRing.RecordKept | umem.c:1498-1529 | so every record, of any run, is intact for nchunks - ncpus rotations after it |
| LogRing.RetiredWaits | umem.c:1512-1515 | a retired chunk moves up one place with each later rotation and belongs to no CPU meanwhile |
| LogRing.ReissuedInTurn | umem.c:1512-1515 | it is reissued at the (nchunks - ncpus)th later rotation and at no earlier one |
| LogRing.LogHeader.Turn | umem.c:1512-1515 | the head and tail arithmetic on lh_free is that queue |
| LogRing.LogHeader.Write | umem.c:1498-1529 | the code in place, with the bytes it copies |
| LogRing.FirstKeeps | umem.c:1472-1482 | the initial arrangement is such a permutation |
| MallocTags.TotalSizeExact | malloc.c:483-495 | a size is refused iff its total does not fit in 64 bits |
| MallocTags.MallocRoundTrip | malloc.c:457-539 | what umem_malloc returns decodes to the same base, total and requested size, for every size |
| MallocTags.MemalignRoundTrip | malloc.c:545-622 | likewise for umem_memalign |
| MallocTags.MemalignAligned | malloc.c:614-616 | the tags fit in front and the data is aligned |
| MallocTags.HullExact | malloc.c:685-693 | the hull test is containment of a range that does not wrap |
| MallocTags.CachedExact | malloc.c:716-737 | for a range that does not wrap the cached span test agrees with the table, and the cache stays good |
| MallocTags.CachedNeedsHull | malloc.c:716-737 | a wrapped range, which every hull refuses, would hit the cache |
| MallocTags.FastIsSlow | malloc.c:1064-1148 | umem_malloc_free decides, and leaves the cached span, as process_free_umem looking at the same moment, for every pointer, memory, widening hull and changing span table |
| MallocTags.FreeExact | malloc.c:1064-1148 | with the table changing under it, an accepted object was owned at a moment the table was looked at, a refused one has a bad tag or was not owned at the last |
| MallocTags.FreeByTable | malloc.c:1064-1148 | while the table stays as it is the free decides by the table alone, whatever span is cached |
| MallocTags.ReadsOnlyHull | malloc.c:900-925 | the decision reads no memory outside the hull |
| MallocTags.PoisonsOnlyTheObject | malloc.c:1009-1040 | an accepted object is owned and every word poisoned is inside it |
| MallocTags.DoubleFreeRefused | malloc.c:990-996 | a pointer freed once is refused for every size word but four |
| MallocTags.DoubleFreeExact | malloc.c:908-1050 | a second free is accepted iff the size word is the alias of a magic and the layout that magic names passes its tests |
| MallocTags.DoubleFreeAccepted | malloc.c:908-1050 | a buffer of 0x380cb101 bytes is such a case |
| MallocTags.Heap.UmemMalloc | malloc.c:483-539 | the code in place, with its error cases |
| MallocTags.Heap.ProcessFree | malloc.c:847-1050 | the code in place; a refused pointer changes no memory and releases nothing |
| MallocTags.Heap.UmemFree | malloc.c:1064-1148 | the code in place; while the table stays as it is, the effect of process_free_umem deciding by the table |
| BootstrapRegistry.AddFinds | malloc.c:178-196 | adding never makes a hole and the page is then found, even in a full set |
| BootstrapRegistry.ReaderFinds | malloc.c:199-213 | a reader without the lock finds every page in the set when it began |
| BootstrapRegistry.RegisterKeeps | malloc.c:218-239 | registering succeeds iff there is room and adds just that pointer |
| BootstrapRegistry.UnregisterKeeps | malloc.c:246-261 | freeing takes out just that pointer; the size is nonzero iff it was registered |
| BootstrapRegistry.PointerExact | malloc.c:356-375 | gate, shape, set and scan together answer yes exactly for registered pointers |
| BootstrapRegistry.HistoryExact | malloc.c:356-375 | so they do after every history of allocations and frees |
| BootstrapRegistry.Registry.IsBootstrapPointer | malloc.c:356-384 | the code in place is exact |
| BootstrapRegistry.Registry.RegisterPtr | malloc.c:218-239 | the code in place |
| BootstrapRegistry.Registry.UnregisterPtr | malloc.c:246-261 | the code in place |
| BootstrapRegistry.Registry.SetMayContain | malloc.c:199-213 | the probe loop |
| HookRegistry.RunKeeps | umem_hooks.c:58-84 | in every run refcnt is the number of activations inside the hook |
| HookRegistry.RegisterExact | umem_hooks.c:107-146 | after registering, every later unregister returns only when the hook is quiet iff no thread was inside it and no unregister of it was waiting |
| HookRegistry.RegisteredInUse | umem_hooks.c:107-191 | a run that registers a structure in use, after which an unregister returns too early |
| HookRegistry.UnregisterSafe | umem_hooks.c:155-191 | unregister returns only when no thread is inside and none can enter |
| HookRegistry.WalkExact | umem_hooks.c:429-472 | a walk not stopped calls back exactly once for each hook present throughout, and not at all iff the hook had 65535 threads inside when the walk came to it |
| HookRegistry.WalkMisses | umem_hooks.c:429-472 | a run where that happens |
| HookRegistry.Registry.RegisterHook | umem_hooks.c:107-146 | the code in place; refused iff the name is taken |
| HookRegistry.Registry.Enter | umem_hooks.c:58-77 | the code in place |
| HookRegistry.Registry.Leave | umem_hooks.c:79-84 | the code in place |
| HookRegistry.Registry.UnregisterHook | umem_hooks.c:155-191 | the first hold of the lock |
| HookRegistry.Registry.NextHook | umem_hooks.c:444-456 | one pass of the walk, with its search |
| BreakEngine.HeldMatches | umem_introspect.c:796-865 | a thread held at the current generation matched the predicate still armed; the server is never stopped; the count is right |
| BreakEngine.Released | umem_introspect.c:712-714 | every continue and every arming releases all threads stopped before it, for good |
| BreakEngine.SeqStopsOne | umem_introspect.c:824-826 | for any number of checks a sequence predicate has stopped exactly the target-th and every 2^64-th after it |
| BreakEngine.HitsStep | umem_introspect.c:824-826 | that count starts at 0 and goes up at exactly the checks whose number is the target modulo 2^64 |
| BreakEngine.Engine.BreakCheck | umem_introspect.c:796-850 | the code in place |
| BreakEngine.Engine.CmdBreak | umem_introspect.c:702-725 | the code in place |
| BreakEngine.Engine.CmdContinue | umem_introspect.c:774-786 | the code in place |
| P2Math.RoundUpExact | sol_compat.h:183 | P2ROUNDUP is the next multiple, 0 when that is 2^64 |
| P2Math.AlignExact | sol_compat.h:181 | P2ALIGN clears the remainder |
| P2Math.EndExact | sol_compat.h:184 | P2END at a power of two is the next multiple above |
| P2Math.EndInside | sol_compat.h:184 | P2END at any multiple of a quantum is a quantum boundary inside the block or its end |
| SlabGeometry.ChunkSizeExact | umem.c:5884-5914 | the chunk size is refused iff it does not fit in 64 bits |
| SlabGeometry.SameSlab | umem.c:5936-5951 | the counts the loop skips need the slab just tried |
| SlabGeometry.BestFit | umem.c:5936-5955 | the least waste per object over all counts 1 to 8, below an eighth of a chunk; refused iff 8 chunks do not fit in 64 bits |
| SlabGeometry.Denser | umem.c:5982-5990 | 16 objects to a slab iff 16 chunks rounded to the quantum stay within 64 KiB, else the best fit, for every chunk and quantum |
| SlabGeometry.Choose | umem.c:5778-6006 | a request is refused iff its arguments are bad, its chunk does not fit in 64 bits, or its layout is turned down; the layout chosen; and it is sound iff the sums the code does not test fit |
| SlabGeometry.EmbeddedExact | umem.c:5921-5934 | the header test is right iff its sum does not wrap |
| SlabGeometry.EmbeddedWraps | umem.c:5921-5934 | a request, with the 72-byte header, that is accepted though nothing fits |
| SlabGeometry.FirewallExact | umem.c:5915-5920 | the firewall layout is sound iff its rounding does not wrap |
| SlabGeometry.FirewallWraps | umem.c:5915-5920 | a request that is given slabs of no bytes |
| SlabGeometry.NextColorOk | umem.c:1871-1876 | the colours stay aligned and within bounds |
| SlabGeometry.SameChunks | umem.c:1890-1899 | every colour has the same positive number of chunks |
| SlabGeometry.BufferInside | umem.c:1901-1937 | every buffer is aligned and below the header |
| SlabGeometry.BuffersApart | umem.c:1901-1937 | no two overlap |
| SlabGeometry.HeaderFound | umem_impl.h:484-485 | UMEM_SLAB finds the header from any byte of a buffer |
| SlabGeometry.AddressRecovered | umem.c:1970 | umem_slab_destroy gives back the address allocated |
| SlabGeometry.ReclaimInside | umem.c:5250-5262 | the pages decommitted are inside the slab for every slab size and colour |
| SlabCreate.Carve | umem.c:1890-1937 | carving gives a slab as the slab layer requires, with every chunk free |
| HashScale.Highbit | misc.c:285-312 | highbit counts the binary digits of every 64-bit number |
| HashScale.MaskTests | misc.c:291-310 | its mask tests are the comparisons modelled |
| HashScale.WantedRange | umem.c:5125-5126 | the size meant is 64 or in ((3b+4)/4, (3b+4)/2] |
| HashScale.ShiftFits | umem.c:5125-5126 | the shift is inside an int iff 3b + 4 < 2^32 |
| HashScale.SizeExact | umem.c:5125-5126 | the size computed is the one meant, whatever an undefined shift gives, iff 3b + 4 < 2^32 |
| HashScale.SizeWraps | umem.c:5125-5126 | 1431655764 buffers in 64 buckets |
| HashScale.NewSize | umem.c:5125-5126 | the code in place |
| HashScale.NoThrash | umem.c:5474-5478 | at the computed size and the same count no rescale is asked for, iff 3b + 4 < 2^32 |
| HashScale.StillAsks | umem.c:5129-5130 | 130 buffers in 64 buckets: asked for, and nothing changes |
| HashScale.StillAsksExactly | umem.c:5125-5130 | exactly when a rescale leaves the test true; past 2^32 always when the shift gives 64 or less |
| SizeClasses.AddedOk | umem.c:6281-6324 | adding makes just the rounded size a class and keeps the table well formed |
| SizeClasses.RemovedOk | umem.c:6327-6350 | removing takes out just that class and keeps the table well formed |
| SizeClasses.OverrunsExactly | umem.c:6336-6349 | the removal writes past the table iff the size is above the largest class and the table is full |
| SizeClasses.EditsKeep | umem.c:6271-6350 | any sequence of edits keeps the table well formed |
| SizeClasses.EditOverruns | umem.c:6336-6349 | an edit of a sequence writes past the table iff it removes a size above UMEM_MAXBUF while the table is full |
| SizeClasses.OverrunHappens | umem.c:6336-6349 | sixteen more classes and one removal do so |
| SizeClasses.InitialOk | umem.c:543-564 | the initial table is well formed |
| SizeClasses.SizeTable.Add | umem.c:6281-6324 | the code in place |
| SizeClasses.SizeTable.Remove | umem.c:6327-6350 | the code in place, with the word after the table it may clear |
| SizeClasses.SizeTable.Build | umem.c:6485-6499 | every size from 1 to UMEM_MAXBUF maps to the smallest class that holds it |
| HashPartition.CreateWithSizes | umem_hash_partition.c:140-191 | intervals that cover the space, one per share with a size and as wide as asked, in order; nothing only when no share has a size or there are too many |
| HashPartition.Create | umem_hash_partition.c:101-138 | equal intervals for the named claimants, covering the space |
| HashPartition.WidthsSum | umem_hash_partition.c:184-186 | the widths add up to 2^64 - 1 |
| HashPartition.BoundsIncrease | umem_hash_partition.c:151-158 | the bounds begin at 0 and strictly increase |
| HashPartition.ScanExact | umem_hash_partition.c:261-292 | a linear scan stops in the one interval that holds the hash |
| HashPartition.GetClaimant | umem_hash_partition.c:261-292 | the binary search ends, is never empty-handed when there are intervals, and agrees with the scan |

## Left out

- vmem arenas, the rseq assembly and umem_ptc.c: only their contracts are used (a fresh quantum-aligned span, atomic detach and attach, a span table whose generation changes with it).
- Fork inside the conservation runs, deadlock freedom, and memory ordering of relaxed reads: each lock hold is one atomic step.
- Constructors, destructors, buftags, auditing, hooks and the debugging checks on allocation and free; corrupted freelist links.
- Lock ownership by particular threads: an operation in flight is not tied to a thread, so the model has more runs than the code.
- Depot working-set counters (ml_min, ml_reaplimit) and statistics: any magazine may be reaped at any time.
- Address mangling of slots and links: a round trip by XOR, modelled as the identity.
- Quantum caches (UMC_QCACHE) in the slab size; the flags that decide auditing, tags and firewall are inputs.
- Weighted hash partitions (floating point), and failure of malloc in partition creation.
- SlabLayer: the slab list is a sequence with a position for cache_freelist, so its slab_next and slab_prev pointers are not modelled; UpdateList does model its links.
- HookRegistry.RunKeeps: the hook list is a sequence, its links are not modelled; generations are unbounded, where the code's are 32 bits; a thread that calls back into the API counts as another activation. The runs register a structure only when no earlier life of it is in use; RegisterExact says what that excludes.
- BreakEngine.Released: the generation counter is unbounded, where the code's is 64 bits.
- MagazineRuns.RunKeeps: the application frees only what it holds.
- MallocTags.CachedExact: one generation is not reused after 2^32 changes of the span table.
- SlabGeometry.ReclaimInside: the slab does not reach into the last page or quantum of the address space, which no arena hands out.
