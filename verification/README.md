# Verification models

Models in Dafny of five state machines of this repository, with proofs about all their runs. Line numbers
below refer to the files under `code/`. Run `dafny verify dfyconfig.toml` here to check everything.

1. **The split virtqueue and its device** (`virtio.c`, section 2.7 of VIRTIO 1.2).
   `QueueProtocol` is a protocol between two actors on values: unbounded counters, the histories of both rings,
   and for each chain in flight the place where it is. `QueueTheorems` says what its invariant means. Class
   `VirtQueue` has the arrays, the 16-bit counters and the loops of the C code, together with a device that acts
   one atomic step at a time; each method is proved to do one step of the protocol.
   `virtio-input.c` (`InputDevices`) and the request path of `fuse-9p.c` (`NinePTransport`) are clients of it.
2. **The GPU command layer** (`virtio-gpu.c`): draining, blocking allocation, fences (section 5.7.6 of
   VIRTIO 1.2), resource ids. `GpuDevices` has the loops, with the device stepping at every point where it can be
   observed; `GpuResources` runs any sequence of calls, and `VirglResources` has the two commands of
   `virgl-virtio.c` that create and drop resources.
3. **The 9P/FUSE client** (`fuse-9p.c`). `NinePFids` is a machine of client, server and kernel whose operations
   carry the replies of the server; `NinePService` is the same service without fids and nodes, which the machine is
   proved to refine; `NinePClients` does it in place. `WireFormat` and `WireMessages` are the
   codec, `DirStreams` and `DirTranslator` the directory translation.
4. **The incremental build** (`bake`). `BakeModel` says what a run does to files, clock and log, `BakeSound`
   what makes the log true, `BakeHistory` what may happen over time, `BakeFresh` why skipping is sound;
   `BakeDecisions` when the commands of a rule run and `BakeStops` where a run ends; `BakeLogs`, `BakeRuns` and `BakeOrder` have the loops and the state, `BakeMain` the whole way from rules and
   targets to the directory, `BakeText` the log file, and `BakeFailure` a run in which a rule fails.
5. **The byte relay** (`console-raw.c`), in `RelayModel` and `Relays`.

## Assumptions

- The queue size is a power of two, at most 32768 (section 2.7); the code relies on it and does not check it.
- The device obeys the specification: it takes entries in order, returns each taken chain once, publishes what it
  has returned, and signals after publishing. It may stop only when it has nothing left to do.
- For fences only: the device echoes the fence of a request and retires fenced commands in order (5.7.6).
- Chains are freed only after `writev` has cut their tail. All callers in the repository do so.
- The 9P server answers requests as the protocol demands: a granted walk opens the new fid and nothing else. It may
  refuse anything. Where the source asserts that a clunk succeeds, a refusal ends the program, as in the source.
- The kernel uses only inodes it was granted, forgets no more lookups than that, and uses handles between open and
  release.
- Commands of a build are functions of what they read, read only what their rule depends on and write only what it
  provides; the clock strictly advances; digests do not collide. Nothing else is assumed about commands that fail,
  and the truth of the log does not need the restrictions on reading and writing.
- Whoever changes a file, be it a command or somebody between two runs, leaves it with an mtime that is not older
  than the change. Copying with the old times (`cp -p`) or moving an old file into place (`mv`) breaks this, and with
  it the build: the mtime is all that `bake` looks at.
- A GPU resource is used only between its creation and its unref.

## Findings

Where the code does not do what one might expect, the model follows the code, and a lemma says exactly when the
expected property holds.

- `virtio_9p_readdir` never reduces `size` and leaves the loop after having decoded the entry that does not fit.
  Everything is delivered inside the buffer exactly when the whole translated stream fits
  (`DirStreams.DeliveredIffAllFits`), and nothing is written past the buffer exactly when the records before the first
  too large one fit together (`DirStreams.StaysInsideIff`). For an answer as long as the buffer, that means that no name
  needs padding (`DirStreams.FullAnswerFitsIff`, with an instance in `DirStreams.FullPageOverruns`).
- The decoders compare an offset into the data with the size of the whole message. A single read is safe exactly if it
  ends seven bytes earlier than its check asks (`WireFormat.NumFromPayloadIff`, `WireFormat.TextFromPayloadIff`); the
  closing check makes up for it (`WireFormat.AcceptedReadsPayloadOnly`).
- `virtio_9p_alloc_fid` has no check for running out (`NinePFids.AllocIsUsableIffRoom`, reached in
  `NinePFids.ExhaustionIsReachable`).
- Growing by doubling a 32-bit capacity makes room only below 2^31 (`Words.GrowthIsExact`).
- A rule of `bake` that is given up because a dependency failed leaves no mark, so the rules after it may count as
  unchanged (`BakeFresh.GivenUpRuleLeavesNoMark`, `BakeFailure.StaleInstance`). The log stays true all the same (`BakeHistory.HistoryKeeps`).
- The log of `bake` is read back as written exactly if no output has a line boundary in its name
  (`BakeText.LogRoundTrip`).
- `console-raw.c` clears EPOLLIN also when a read is interrupted, and nothing sets it again
  (`RelayModel.FlowsUntilAReadIsEmpty`, `RelayModel.InterruptedReadStops`).
- A resource id is handed out with a buffer exactly if it was unreferenced with one attached
  (`IdTables.IdTable.Alloc`). `virgl-virtio.c` never detaches, so a resource without data that reuses the id of one with
  data has the same buffer unmapped a second time (`VirglResources.VirglServer.UnmapsTwice`).

## Model

| member | source | states |
|---|---|---|
| QueueProtocol.InitialInv | code/virtio.c:142-151 | after initialisation every descriptor is free and the whole invariant holds |
| QueueProtocol.StepKeeps | code/virtio.c:173-261 | every step of the driver and every step of the device, in any order, keeps ownership, transit, conservation, the wakeup condition, and for each chain in flight the buffers that it was sent with |
| QueueProtocol.RunKeeps | code/virtio.c:173-261 | the same over every interleaving of the two actors, of any length |
| QueueTheorems.DescriptorsArePartitioned | code/virtio.c:173-256 | in every reachable state each descriptor is free or in exactly one chain, and the two counts add up to num |
| QueueTheorems.SendSlotIsFree | code/virtio.c:216-224 | the avail slot that send writes holds no entry that the device has still to consume |
| QueueTheorems.CompleteSlotIsFree | code/virtio.c:236-244 | a used element that the driver has not received, or has received last, is not overwritten before that chain is freed and a later chain sent |
| QueueTheorems.InFlightFits | code/virtio.c:216-244 | entries in both rings and further heads together never exceed num |
| QueueTheorems.WrappedSlot | code/virtio.c:219-241 | a 16-bit counter modulo num is the unbounded counter modulo num, for a power of two |
| QueueTheorems.CountersAgree | code/virtio.c:236-261 | the wrapping counters are equal exactly when the unbounded ones are, on both sides: next_used == used_index means that nothing visible is pending |
| QueueTheorems.RunExtends | code/virtio.c:216-244 | over every run the driver receives what the device returned, in the order of return |
| QueueTheorems.DeliveredAtMostOnce | code/virtio.c:216-244 | over every run from power-on no chain is received more often than it was sent |
| QueueTheorems.AllReturned | code/virtio.c:216-244 | with nothing in flight, each chain has been received exactly as often as sent |
| QueueTheorems.FreeUndoesAlloc | code/virtio.c:173-256 | alloc, writev and free give back the same queue, the order of the free list included |
| QueueTheorems.WorkGoesDown | code/vfio.c:564-568 | every device step, and every read of the eventfd, lowers the measure that bounds all blocking loops |
| QueueTheorems.BlockedDriverWakesUp | code/vfio.c:564-568 | no lost wakeup: a driver about to block with a chain in flight finds an armed eventfd or a device that still has a step to take |
| DescriptorTable.WalkFindsFree | code/virtio.c:142-151 | following next from free_head visits exactly the free descriptors, then num |
| DescriptorTable.WalkFindsChain | code/virtio.c:192-214 | a device that follows next while NEXT is set finds exactly the descriptors of the chain |
| DescriptorTable.SentChainsAreFramed | code/virtio.c:192-234 | every chain in flight is acyclic, ends without NEXT, and has its readable descriptors before its writable ones |
| DescriptorTable.SentChainsCarry | code/virtio.c:192-234 | walking any chain in flight, the device finds the buffers of the latest entry that sent it, in order, with exactly the first readcnt of them readable |
| DescriptorTable.AllocLinks | code/virtio.c:178-189 | cutting n descriptors off the free list leaves every list in the table well linked |
| DescriptorTable.WrittenLinks | code/virtio.c:198-213 | what writev leaves in the table is a cut chain that holds the given buffers, and every other list is as it was |
| DescriptorTable.ReleaseLinks | code/virtio.c:249-255 | linking the last descriptor of a chain to the old head yields the longer free list, and every other chain is as it was |
| RingSlots.WrapAgrees | code/virtio.c:238-242 | comparing 16-bit counters decides whether there is something to receive or to take |
| RingSlots.AvailWrite | code/virtio.c:219-224 | storing a head in slot next_avail % num appends to the avail history and keeps all live entries readable |
| RingSlots.UsedRead | code/virtio.c:241-243 | slot next_used % num holds the element that the device returned at that position |
| VirtQueues.VirtQueue.constructor | code/virtio.c:142-151 | the arrays and counters represent the initial queue |
| VirtQueues.VirtQueue.SkipFree | code/virtio.c:181-186 | stepping iovcnt times from the free head arrives behind that many free descriptors, and the count follows |
| VirtQueues.VirtQueue.Alloc | code/virtio.c:173-190 | -1 without change if there are too few descriptors, else the old free head and the first descriptors of the free list as one chain |
| VirtQueues.VirtQueue.WriteChain | code/virtio.c:198-213 | each descriptor of the chain gets its buffer, WRITE exactly from readcnt on and NEXT exactly before the end; no other descriptor changes |
| VirtQueues.VirtQueue.Writev | code/virtio.c:192-214 | the chain is cut with the given buffers; nothing else changes |
| VirtQueues.VirtQueue.Send | code/virtio.c:216-224 | the head is written to slot avail.idx % num and to no other, and avail.idx goes up by one modulo 2^16; that appends it to the avail ring |
| VirtQueues.VirtQueue.Recv | code/virtio.c:236-244 | NULL exactly if nothing visible is pending, else slot next_used % num, which holds the next element in device order |
| VirtQueues.VirtQueue.CountChain | code/virtio.c:248-252 | the walk ends at the last descriptor of the chain and counts each descriptor once |
| VirtQueues.VirtQueue.Free | code/virtio.c:246-256 | the chain goes back to the front of the free list and the count follows; buffers stay as they are |
| VirtQueues.VirtQueue.HandleEvent | code/virtio.c:258-261 | used_index becomes what the device has published |
| VirtQueues.VirtQueue.ClearEvents | code/vfio.c:564-568 | blocking on the eventfd ends, for every device that goes on; the device may step up to the moment of the read, and the measure is lower afterwards |
| VirtQueues.VirtQueue.DeviceTake | code/virtio.c:216-224 | the device consumes the entries in order, and walking the table from the head it finds the buffers that were handed over with this entry |
| VirtQueues.VirtQueue.InFlightCarries | code/virtio.c:192-234 | at every moment, whatever chain is in flight, the table holds for it the buffers of the call that sent it |
| DriverSteps.ShortOfDescriptors | code/virtio-gpu.c:85-94 | when an allocation of at most num descriptors fails between two calls, some chain is in flight |
| DriverSteps.SendQuiets | code/virtio-gpu.c:96-101 | writing and sending the one chain that the caller holds leaves every non-free descriptor in flight |
| GpuFences.SendFenced | code/virtio-gpu.c:391-415 | numbering a command one past the last fence keeps the fences in flight consecutive and in ring order |
| GpuFences.CompleteFences | code/virtio-gpu.c:19-32 | a device that retires fenced commands in order and echoes the fence keeps the numbering |
| GpuFences.ReceiveFences | code/virtio-gpu.c:19-32 | the fence that comes back with an element is the oldest outstanding one, and a command without a fence brings none |
| GpuFences.FenceEqualityIsExact | code/virgl-virtio.c:150-155 | fence_submitted equals fence_completed exactly when no command in flight carries a fence, although both wrap at 32 bits |
| GpuSnapshots.RecvKeeps | code/virtio-gpu.c:19-35 | one receive keeps the fence numbering, and reports 1, 2, 3, ... to the callback, each once |
| GpuSnapshots.DrainFrees | code/virtio-gpu.c:52-62 | any chain other than the one waited for may be freed when it arrives, and leaves the set in flight |
| GpuSnapshots.WakeGoesOn | code/virtio-gpu.c:49-51 | blocking and reloading the used index loses no chain |
| GpuDevices.GpuDev.ClearIrq | code/vfio.c:564-568 | the blocking read returns, with the device stepping up to that moment, and changes nothing else that the driver sees |
| GpuDevices.GpuDev.Recv | code/virtio-gpu.c:19-35 | returns the next element in device order and moves fence_completed exactly for a fenced one |
| GpuDevices.GpuDev.Drain | code/virtio-gpu.c:52-62 | frees each visible chain once, except the one to keep, and says whether that one came |
| GpuDevices.GpuDev.Wait | code/virtio-gpu.c:44-64 | ends with every device that goes on; all other drained chains are free again, and only chain id is left to the caller |
| GpuDevices.GpuDev.Poll | code/virtio-gpu.c:66-83 | ends with every non-free descriptor in flight, and lowers the measure if it had to block |
| GpuDevices.GpuDev.Alloc | code/virtio-gpu.c:85-94 | the blocking allocation ends with a fresh chain of the asked length, for every request of at most num descriptors |
| GpuDevices.GpuDev.Send | code/virtio-gpu.c:96-101 | the chain is written with the buffers of the call, in order and the first readcnt readable, and sent; the slot of its head and no other gets the request, and it joins the fences exactly if it is fenced |
| GpuDevices.GpuDev.SendRecv | code/virtio-gpu.c:109-115 | one command goes out with the given buffers and comes back, its chain is free again and no descriptor is lost |
| GpuDevices.GpuDev.Async | code/virtio-gpu.c:345-379 | one plain command goes in flight with the given buffers, and the boundary state is kept: everything that is not free is in flight |
| GpuDevices.GpuDev.Flush | code/virtio-gpu.c:381-417 | one command goes out as the latest fence, its first buffer for the device to read and its second to write, and its number is returned |
| GpuDevices.GpuDev.Sync | code/virtio-gpu.c:419-451 | one command goes out with the given buffers and comes back; the boundary state is kept and no fence is added |
| GpuDevices.GpuDev.SubmitCmd | code/virtio-gpu.c:662-694 | the same with one fence and two readable buffers; the number of the fence is right although allocating may receive other fences first |
| GpuDevices.GpuDev.FenceEquality | code/virgl-virtio.c:150-155 | at every boundary the equality of the two fields is exact, and the callback has seen 1, 2, 3, ... in order |
| GpuDevices.GpuDev.BusyWakesUp | code/virgl-virtio.c:152-155 | while a fence is outstanding a poll does not block for good |
| GpuDevices.GpuDev.BusyWait | code/virgl-virtio.c:150-157 | the busy-wait loop ends, and then no fence is outstanding |
| Words.GrowthIsExact | code/virtio-gpu.c:127-131 | doubling a 32-bit capacity makes room exactly below 2^31 |
| IdTables.PopFree | code/virtio-gpu.c:121-125 | taking the head of the id list leaves a well-linked list without it |
| IdTables.PushFree | code/virtio-gpu.c:204-205 | putting an id in front leaves a well-linked acyclic list |
| IdTables.BackedMeans | code/virtio-gpu.c:241-281 | over every history of attaching and detaching, the buffer of an id is set exactly if its latest event attached one |
| IdTables.IdTable.Alloc | code/virtio-gpu.c:118-143 | the id is neither live nor awaiting acknowledgement; ids stay partitioned across growth; the id comes without a buffer exactly if it is new or none was left attached to it when it was unreferenced |
| IdTables.IdTable.Attach | code/virtio-gpu.c:241-244 | sets buffer and size of one entry; ids and lists stay |
| IdTables.IdTable.Detach | code/virtio-gpu.c:278-281 | clears buffer and size of one entry; ids and lists stay |
| IdTables.IdTable.Release | code/virtio-gpu.c:204-205 | the acknowledged id becomes the head of the free list, and no entry loses its buffer |
| GpuResources.GpuClient.Create2d | code/virtio-gpu.c:208-239 | the new id is not live, one command is in flight, and no descriptor is lost |
| GpuResources.GpuClient.Create3d | code/virtio-gpu.c:489-529 | the same for a creation that waits |
| GpuResources.GpuClient.AttachBacking | code/virtio-gpu.c:241-276 | the entry holds the buffer and one command is in flight |
| GpuResources.GpuClient.DetachBacking | code/virtio-gpu.c:278-308 | the entry holds none and one command is in flight |
| GpuResources.GpuClient.CreateContext | code/virtio-gpu.c:573-632 | a new context id that is not live, and one command sent and returned |
| GpuResources.GpuClient.ResourceUnref | code/virtio-gpu.c:176-206 | the id is free only after the device has answered |
| GpuResources.GpuClient.Recycle | code/virtio-gpu.c:204-205 | an id is put back only when its unref command has been sent and returned by the device |
| GpuResources.GpuClient.Run | code/virtio-gpu.c:118-694 | over every sequence of calls: the ids handed out are distinct and as many as the calls leave alive, exactly the buffers of the calls go out, in the order of the calls, every fence is counted, and no descriptor is lost |
| VirglResources.VirglServer.Create | code/virgl-virtio.c:245-266 | a buffer is attached exactly if the client wants data, and the commands for it are sent |
| VirglResources.VirglServer.Drop | code/virgl-virtio.c:116-125 | unmaps what was last attached to the id, if anything, and leaves it attached; one command is sent |
| VirglResources.VirglServer.UnmapsTwice | code/virgl-virtio.c:116-266 | creating with data, dropping, creating without, dropping: the same buffer is unmapped twice |
| NinePTransport.RequestSent | code/fuse-9p.c:234-267 | from the idle state, two descriptors are allocated, cut after one readable and sent |
| NinePTransport.RequestReturns | code/fuse-9p.c:269-277 | the only element that can come back is the request: elem->id == id |
| NinePTransport.RequestFreed | code/fuse-9p.c:248-253 | freeing it restores the free list as a sequence |
| NinePTransport.Transport.Alloc | code/fuse-9p.c:232-246 | the assertion req_id >= 0 holds in every idle state, and the two messages differ |
| NinePTransport.Transport.SendRecv | code/fuse-9p.c:255-292 | ends; the device gets both messages, the first to read and the second to write; on success the chain is the caller's to free, on an error reply it has been freed |
| NinePTransport.Transport.Request | code/fuse-9p.c:343-397 | one request goes out and has come back, and every path ends with the free list that it started with |
| NinePTransport.Transport.Requests | code/fuse-9p.c:343-397 | any number of operations sends that many requests, all with the same head, each with its own buffers |
| InputSteps.SupplyNext | code/virtio-input.c:58-59 | supplying the buffers in order gives buffer k the descriptor k |
| InputSteps.Recycled | code/virtio-input.c:39-40 | receiving and freeing one element leaves exactly its descriptor free |
| InputSteps.SupplyAgain | code/virtio-input.c:32-43 | so the next allocation returns the same index and all descriptors are back with the device |
| InputSteps.FillStaysLogged | code/virtio-input.c:38-40 | a buffer that the device fills holds no event that the driver has still to read |
| InputDevices.InputDev.constructor | code/virtio-input.c:45-60 | after initialisation descriptor i points at events[i], all of them are with the device, and nothing has been received |
| InputDevices.InputDev.SupplyBuffer | code/virtio-input.c:18-30 | the assertion index >= 0 holds; the descriptor gets the buffer and no other changes |
| InputDevices.InputDev.Recv | code/virtio-input.c:32-43 | returns the next event the device wrote, in order, and gives the buffer back in the same descriptor |
| InputDevices.InputDev.Load | code/virtio.c:258-261 | what the device has published becomes visible; buffers and events stay |
| InputDevices.InputDev.Handle | code/nested-virtio.c:626-630 | the handler ends, and delivers in order all that was published when it began, and possibly more |
| InputDevices.InputDev.Run | code/virtio-input.c:32-43 | over any sequence of device steps, loads and receives: the events handed over are those written, in order, each once; all buffers are with the device, each in its descriptor |
| InputDevices.RunFromStart | code/virtio-input.c:32-60 | the same from initialisation on: what was handed over is the beginning of what was written |
| NinePFids.FixIsInvolution | code/fuse-9p.c:193-201 | distinct server files have distinct inodes, and the mapping undoes itself |
| NinePFids.InitialHolds | code/fuse-9p.c:635-654 | after the attach the root node holds fid 0 and everything agrees |
| NinePFids.AllocKeeps | code/fuse-9p.c:203-213 | with a fid left, the one allocated is not open and not reserved, and every other fid keeps its holder |
| NinePFids.FreeKeeps | code/fuse-9p.c:215-230 | a fid that is not open may go back to the stack |
| NinePFids.WalkKeeps | code/fuse-9p.c:343-374 | a granted walk opens exactly the new fid, and a refused one none |
| NinePFids.ClunkKeeps | code/fuse-9p.c:376-397 | a granted clunk closes the fid at the server and frees it at the client |
| NinePFids.FoundKeeps | code/fuse-9p.c:685-697 | a lookup that finds a node gives the new fid back and the node one more lookup |
| NinePFids.FreshKeeps | code/fuse-9p.c:700-717 | a lookup of a new file leaves the fid with its node, or gives it back |
| NinePFids.LookupKeeps | code/fuse-9p.c:664-718 | a lookup keeps the invariant for all replies, unless an asserted clunk is refused |
| NinePFids.ForgetKeeps | code/fuse-9p.c:720-738 | a forget within the granted lookups passes the assertions; at zero the node leaves and its fid is clunked |
| NinePFids.ForgetMultiKeeps | code/fuse-9p.c:937-959 | so does a batch |
| NinePFids.ForgetMultiIsAFold | code/fuse-9p.c:937-959 | a batch is the fold of single forgets |
| NinePFids.OpenFidKeeps | code/fuse-9p.c:805-813 | an opened fid becomes a handle that leads to the file of the inode, distinct from all handles and from 0 |
| NinePFids.OpenKeeps | code/fuse-9p.c:789-814 | open and opendir keep the invariant for all replies, unless an asserted clunk is refused |
| NinePFids.ReleaseKeeps | code/fuse-9p.c:846-858 | release keeps it also when the server refuses, whether or not it keeps the fid |
| NinePFids.ApplyKeeps | code/fuse-9p.c:664-959 | every legal operation keeps the agreement of client, server and kernel |
| NinePFids.RunKeeps | code/fuse-9p.c:664-959 | over every run: each request names an open fid, each walk goes to a fid that is not open, and no assertion on nodes, counts or handles fails |
| NinePFids.HandleIsForItsFile | code/fuse-9p.c:789-884 | a handle is open on the server file of the inode that it was opened for, until it is released |
| NinePFids.FidHasOneHolder | code/fuse-9p.c:203-230 | every fid ever issued is in exactly one of: the stack, a node, a handle, the lost ones |
| NinePFids.FidsAreCounted | code/fuse-9p.c:203-230 | the sizes of the four add up to next_fid |
| NinePFids.NodeWhileLookedUp | code/fuse-9p.c:664-738 | a node is in the table exactly while lookups granted exceed lookups forgotten, and nlookup is the difference |
| NinePFids.OneNodePerFile | code/fuse-9p.c:683-717 | no two nodes stand for the same server file |
| NinePFids.HandlesAreNotZero | code/fuse-9p.c:818-852 | the assertions fi->fh != 0 hold |
| NinePFids.LostIsNeverReused | code/fuse-9p.c:846-858 | a fid whose clunk failed is never issued again, over every run |
| NinePFids.AllocIsUsableIffRoom | code/fuse-9p.c:203-213 | the allocated fid is usable exactly while fewer than 2^32 - 1 fids are held: the code has no check |
| NinePFids.ExhaustionReissuesTheRoot | code/fuse-9p.c:203-213 | after that it issues the reserved fid and then the root's |
| NinePFids.ExhaustionIsReachable | code/fuse-9p.c:789-814 | 2^32 - 2 granted opens lead there, with no assertion failing on the way |
| NinePService.LookupServes | code/fuse-9p.c:664-718 | seen without fids: a lookup walks from the file of the parent to the name, asks for the attributes of the file found, closes what is not needed, and grants one lookup exactly if all succeed |
| NinePService.ForgetServes | code/fuse-9p.c:720-738 | a forget lowers what is granted, and closes the file of the inode exactly when nothing is left |
| NinePService.OpenServes | code/fuse-9p.c:789-814 | an open opens one more fid on the file of the inode, and on success the kernel gets a fresh handle for it |
| NinePService.ApplyServes | code/fuse-9p.c:664-959 | each operation does for the kernel what a client without fids and nodes would: the same requests about the same files in the same order, the same lookups granted, the same handles |
| NinePService.RunServes | code/fuse-9p.c:664-959 | so does every run |
| NinePClients.Client.TakeFid | code/fuse-9p.c:203-213 | pops the stack, or takes next_fid |
| NinePClients.Client.GiveFid | code/fuse-9p.c:215-230 | pushes, with the array doubled when full |
| NinePClients.Client.TryClunk | code/fuse-9p.c:376-397 | on success the fid is on the stack, on an error it is not |
| NinePClients.Client.Look | code/fuse-9p.c:664-718 | does what the service without fids does for these replies; the inode answered is the one of the file found, and has one more granted lookup |
| NinePClients.Client.Drop | code/fuse-9p.c:720-738 | the forget in place: the file is closed exactly when nothing is granted any more |
| NinePClients.Client.DropMany | code/fuse-9p.c:937-959 | the loop does the fold over the batch, for the service as well, and stops at a refused clunk |
| NinePClients.Client.OpenNode | code/fuse-9p.c:789-814 | on success the handle is fresh, not 0, and open on the file of the inode; on failure there is none |
| NinePClients.Client.ReleaseHandle | code/fuse-9p.c:846-858 | the fid of the handle is clunked, and the handle is gone, and lost exactly if the server refused |
| NinePClients.Client.UseHandle | code/fuse-9p.c:816-844 | read and readdir ask about the file that the handle was opened for |
| NinePClients.Client.UseNode | code/fuse-9p.c:740-787 | getattr, readlink and statfs ask about the file of the inode |
| WireFormat.NumberOfBytes | code/fuse-9p.c:106-128 | reading back a little-endian number of any width gives the number |
| WireFormat.BytesOfNumber | code/fuse-9p.c:141-171 | the bytes of what was read are the bytes that were there |
| WireFormat.LittleEndian | code/fuse-9p.c:106-128 | byte i of an encoded number is its digit of weight 256^i |
| WireFormat.ReadBack | code/fuse-9p.c:141-191 | decoding any encoded field list by its schema returns the fields and the exact end offset |
| WireFormat.ReadIs | code/fuse-9p.c:141-191 | whatever the decoders return is what the encoders would have written there |
| WireFormat.AcceptedMeansEncoded | code/fuse-9p.c:364-371 | a message passes all checks and yields given fields exactly when its payload is their encoding |
| WireFormat.AcceptedReadsPayloadOnly | code/fuse-9p.c:364-371 | with the closing offset + 7 == size check, memory after the payload has no influence on what is decoded |
| WireFormat.NumFromPayloadIff | code/fuse-9p.c:141-171 | a single read that passes its check depends on the payload alone exactly if it ends at least seven bytes before the size, or is empty |
| WireFormat.TextFromPayloadIff | code/fuse-9p.c:182-191 | the same for a string, length and bytes together |
| WireFormat.SingleChecksDoNotBound | code/fuse-9p.c:157-163 | an instance: one byte of payload, and a 32-bit read that passes its check and yields different numbers |
| WireFormat.TextOffsetIsExact | code/fuse-9p.c:182-191 | the 16-bit result of decode_string is the end of the string exactly below 2^16, which messages of at most 8203 bytes guarantee |
| WireFormat.EncodeIsInjective | code/fuse-9p.c:106-139 | two field lists of one schema have different encodings |
| WireMessages.Message.Store | code/fuse-9p.c:106-128 | the bytes are appended, and what lies after them is as it was |
| WireMessages.Message.EncodeU16 | code/fuse-9p.c:106-112 | appends the encoding of the number |
| WireMessages.Message.EncodeU32 | code/fuse-9p.c:114-120 | appends the encoding of the number |
| WireMessages.Message.EncodeU64 | code/fuse-9p.c:122-128 | appends the encoding of the number |
| WireMessages.Message.EncodeString | code/fuse-9p.c:130-139 | appends length and bytes |
| WireMessages.Message.EncodeWalk | code/fuse-9p.c:343-358 | a server that decodes the request by its schema gets fid, newfid and the name; the bytes are given in full |
| WireMessages.WalkOnTheWire | code/fuse-9p.c:343-358 | the request byte by byte: both fids, the number of names, the name with its length |
| WireMessages.Message.DecodeNumber | code/fuse-9p.c:141-171 | fails exactly if the checked bound is exceeded, and else returns number and offset |
| WireMessages.Message.DecodeString | code/fuse-9p.c:182-191 | the same for a string |
| WireMessages.Message.DecodeWalkAnswer | code/fuse-9p.c:364-371 | succeeds exactly on messages that are a count and a qid, and returns that qid |
| WireMessages.QidIsRead | code/fuse-9p.c:173-180 | decode_qid is the schema of its three fields |
| DirStreams.EntryIs | code/fuse-9p.c:601-604 | what the four decoder calls return is an entry of the stream at that place |
| DirStreams.EntryBack | code/fuse-9p.c:601-604 | and every encoded entry is read back |
| DirStreams.EntryOnTheWire | code/fuse-9p.c:601-604 | an entry byte by byte |
| DirStreams.RecordsParseBack | code/fuse-9p.c:610-619 | a reader of the written records sees exactly the entries, in order, with fixed inodes |
| DirStreams.RecordAsBytes | code/fuse-9p.c:610-617 | an instance: all bytes of a record for the root directory |
| DirStreams.RecordsAreAligned | code/fuse-9p.c:606-619 | the length is the sum of the aligned sizes |
| DirStreams.TranslateIs | code/fuse-9p.c:588-624 | what comes out for every size: all records if each alone fits, all but a too large last one, or a failed assertion |
| DirStreams.DeliveredIffAllFits | code/fuse-9p.c:588-624 | all entries are delivered inside the buffer exactly when the whole translated stream fits |
| DirStreams.StaysInsideIff | code/fuse-9p.c:594-620 | no byte is written past the buffer, whether an assertion fails or not, exactly if the records before the first that is too large by itself fit together |
| DirStreams.FullAnswerFitsIff | code/fuse-9p.c:580-620 | an answer as long as the buffer stays inside it exactly if no name needs padding |
| DirStreams.FullPageOverruns | code/fuse-9p.c:580-620 | an answer of 4096 bytes for which 5232 are written into a buffer of 4096 |
| DirTranslator.NextEntry | code/fuse-9p.c:601-604 | the decoder calls in place |
| DirTranslator.PutRecord | code/fuse-9p.c:610-617 | writes one record and nothing else |
| DirTranslator.Readdir | code/fuse-9p.c:588-624 | on every path the bytes written are those of the model and no byte after them changes; what is returned is what was written |
| RelayModel.ReadableKeeps | code/console-raw.c:117-130 | the exclusive or clears the readable bit, and the buffer that the read overwrites is empty |
| RelayModel.StepKeeps | code/console-raw.c:77-156 | each event, with every partial read and write, keeps the invariant |
| RelayModel.RelayIsSafe | code/console-raw.c:62-156 | over every run the terminal has received exactly the beginning of what the reads of the pty returned, as long as the bytes it accepted, and lags by at most 4096 bytes; the same the other way |
| RelayModel.RunMoves | code/console-raw.c:77-156 | the bytes taken and the number of bytes sent are those that the events of the run say |
| RelayModel.LoopEnds | code/console-raw.c:75-156 | the loop ends exactly with a failed call, or when the shell has closed both its output and its input |
| RelayModel.NoRefill | code/console-raw.c:98-130 | no buffer is refilled while it holds unsent bytes |
| RelayModel.FlowsUntilAReadIsEmpty | code/console-raw.c:77-156 | a direction goes on exactly until its first read without bytes (or a broken pipe, towards the pty) |
| RelayModel.InterruptedReadStops | code/console-raw.c:118-129 | one interrupted read of the pty silences the terminal for good |
| Relays.Relay.HandleStdout | code/console-raw.c:81-97 | what write(2) accepts is the next part of the buffer, and the buffer variables and masks follow |
| Relays.Relay.HandleStdin | code/console-raw.c:98-115 | the buffer holds what was read, and is refilled only when it is empty |
| Relays.Relay.HandleMaster | code/console-raw.c:116-155 | both halves in order: buffers, masks and what the pty accepts |
| Relays.Relay.Run | code/console-raw.c:77-156 | over the whole loop, what write(2) has accepted on the terminal and on the pty is the beginning of the bytes read on the other side |
| BakeSound.EntrySurvives | code/bake:556-567 | an entry of the log stays true under every change of files that carries newer mtimes |
| BakeSound.NewEntryOk | code/bake:609-618 | the entry logged after a success is true, also if files were edited while the commands ran |
| BakeSound.ProcessRuleKeeps | code/bake:584-622 | one rule, built, skipped or failed, keeps the log true |
| BakeSound.RunRulesKeeps | code/bake:657-674 | so does a run, with any limit on failures |
| BakeLog.RunRulesShape | code/bake:476-481 | the log in memory stays the old log overlaid with the appended entries, each path appended at most once |
| BakeLog.WrittenHolds | code/bake:502-521 | the log written has one entry per path and is the log in memory without missing outputs |
| BakeHistory.CleanDeadKeeps | code/bake:646-654 | cleandead keeps the log true and leaves one entry per path |
| BakeHistory.CleanDeadRemoves | code/bake:646-654 | what goes is the files and entries of logged paths that no rule provides any more, and nothing else |
| BakeHistory.HistoryKeeps | code/bake:443-654 | so does every history of edits, runs that succeed, fail or are killed, clean and cleandead: the assertion of the Log constructor never fails |
| BakeFresh.FindMeans | code/bake:455-474 | find returns a start time exactly if all outputs match digest and mtime, and then the earliest |
| BakeFresh.CheckMeans | code/bake:556-567 | check_updated says False exactly if no dependency was touched in this run and all exist and are older |
| BakeFresh.SkipIsSound | code/bake:592-602 | a rule that is skipped has the outputs that its commands would make now |
| BakeFresh.RunSettles | code/bake:584-622 | after a run in which every rule succeeds, all outputs are right |
| BakeFresh.ScratchGivesSame | code/bake:657-674 | building from scratch then gives the same files |
| BakeFresh.RunIsSound | code/bake:584-622 | on a directory with a true log, a run in which every rule succeeds leaves what a build from scratch makes of the sources |
| BakeFresh.IncrementalBuildIsSound | code/bake:443-622 | after any history, a run in which every rule succeeds leaves exactly what a build from scratch makes of the current sources |
| BakeFresh.SkippedIffComplete | code/bake:584-602 | a recorded rule is skipped exactly if it provides something and all that it provides and needs exists |
| BakeFresh.GivenUpRuleLeavesNoMark | code/bake:592-602 | a rule that is given up leaves no mark, and the next one that needs it is skipped as unchanged |
| BakeFailure.FailedRunReusesStale | code/bake:584-622 | for any three rules in a row built once: if a source of the first changes and its commands fail, the second is given up and the third reused |
| BakeFailure.StaleInstance | code/bake:584-622 | such a run, from an empty log on: the reason why the theorems ask that every rule succeeds |
| BakeFresh.NullBuildDoesNothing | code/bake:502-602 | building again at once runs no command |
| BakeDecisions.CheckDecides | code/bake:556-567 | the first dependency that is marked, missing or not older than the start decides: failed if its mark says so, else newer; without one, unchanged |
| BakeDecisions.ProcessRuleMeans | code/bake:584-622 | the commands run exactly if -B is given, or an output is missing or differs from its entry, or there is none, or a dependency is newer; then directory, time and success are theirs, and marks and log entries are given in full; otherwise only time passes |
| BakeDecisions.AlwaysRuns | code/bake:592-609 | under -B directory, time and success after every rule are those of its commands |
| BakeStops.StopMeans | code/bake:657-674 | without a limit every rule gets its turn, with -k 1 every rule up to the first that fails, and a run that stops early stops with a failure |
| BakeStops.RunStops | code/bake:657-674 | a run is the rules one after the other, up to the failure that reaches the limit, and succeeds exactly if none of these fails |
| BakeStops.EachIsProcessed | code/bake:657-674 | at each rule of a run exactly what has to run runs, on what the rules before it have left |
| BakeStops.AlwaysRunsAll | code/bake:592-674 | under -B a run is the commands of all rules, in order, up to where it stops |
| BakeLogs.MemoryLog.constructor | code/bake:445-453 | the assertion holds for one entry per path, and the map holds all entries |
| BakeLogs.MemoryLog.Find | code/bake:455-474 | the loop computes the specified start time |
| BakeLogs.MemoryLog.Append | code/bake:476-481 | files, log and updated all get the new entries |
| BakeRuns.Baker.CheckUpdated | code/bake:556-567 | the loop stops at the first dependency that is not known to be unchanged |
| BakeRuns.Baker.ProcessRule | code/bake:584-622 | in every branch the fields change as they must: commands run exactly if they have to |
| BakeRuns.Baker.Build | code/bake:657-674 | the loop processes the first k rules, one after the other, and exits with status 1 exactly at the failure that reaches the limit |
| BakeOrder.GetProviders | code/bake:303-329 | succeeds exactly if no path is provided twice, and then maps every provided path to its rule |
| BakeOrder.SortTargets | code/bake:388-409 | the search ends, gives every node exactly the predecessors that it must have, and reaches nothing that the targets do not need |
| BakeOrder.ProviderComesFirst | code/bake:388-412 | in the sorted order a provider stands before the rule that needs it |
| BakeOrder.SortedRulesAreGood | code/bake:303-412 | so the rules of a run are what the soundness theorem asks for, and contain every needed rule |
| BakeMain.ResolveTargets | code/bake:360-378 | fails exactly if a target is not provided; no targets means all |
| BakeMain.ChosenServe | code/bake:388-412 | the rules taken are given ones, provide the targets, contain what each of them needs, and each is needed: a chain of rules leads to it from a target |
| BakeMain.BuildTargets | code/bake:657-711 | from rules and targets to the directory: no run exactly if a path is provided twice, a target by nobody, or the rules cannot be sorted; otherwise a run of exactly the rules that are needed, up to where the limit stops it, and if all succeed, what a build from scratch makes of the current sources |
| BakeText.PrintIntRoundTrip | code/bake:496-519 | numbers as written are read back |
| BakeText.LineRoundTrip | code/bake:496-519 | a line is read back to its entry, with tabs in the name |
| BakeText.LogRoundTrip | code/bake:484-521 | reading back what was written gives the entries with mtimes exactly if none of their names contains a line boundary |
| BakeText.NamesReadHaveNoBreaks | code/bake:484-499 | names that were read contain none |
| BakeText.NextRunStartsFromSame | code/bake:484-521 | so the text in between changes nothing for the next run |
| BakeText.CorruptedIff | code/bake:484-493 | a log that is not empty is refused exactly if it does not begin with the header and the end of a line |
| BakeText.LogAsText | code/bake:510-519 | an instance: a log as it stands in the file |

## Left out

- BakeText.LogRoundTrip: reads the numbers that `write_log` produces; `int` of Python accepts more spellings, such as signs, underscores and spaces. Start times are not negative.
- VirtQueues.VirtQueue.Writev: is modelled for as many buffers as the chain has descriptors, which is how every caller uses it; addresses and lengths are numbers of any size.
- VirtQueues.VirtQueue.Send: does not model suppression of notifications nor the doorbell; memory barriers are taken to order the steps as written.
- GpuDevices.GpuDev.SendRecv: does not model the response types that virtio_gpu_check_error compares, nor the contents of a command other than its fence; its buffers are addresses and lengths.
- GpuDevices.GpuDev.Alloc: is stated for requests of 1 to num descriptors; a larger one blocks for ever, and 0 allocates nothing.
- GpuDevices.GpuDev.Sync: does not model the response types either, nor the answers that the get functions copy out.
- IdTables.IdTable.Alloc: is stated while an id can be had: a free one, a place in the array, or room to double it in 32 bits (Words.GrowthIsExact); reallocation is taken to succeed.
- NinePTransport.Transport.SendRecv: does not model the tag that the source compares, nor the size of an error reply; that the server answers is the device's part.
- NinePClients.Client.GiveFid: is stated while the array has a place or can be doubled in 32 bits, and so are the operations on top of it; NinePClients.Client.DropMany asks for as many places as the batch has entries.
- WireMessages.Message.DecodeNumber: is stated for messages of at most 8203 bytes, the size negotiated with the server; sizes beyond it would read outside the mapping.
- WireMessages.Message.DecodeString: is stated for the same messages.
- DirTranslator.Readdir: takes memory to go on after the buffer, so that it can say what the loop does when records do not fit; the request that precedes it is an ordinary request of the transport.
- BakeHistory.HistoryKeeps: takes the entries of the log as they were written; for names with line boundaries see BakeText.LogRoundTrip.
- BakeMain.BuildTargets: takes TopologicalSorter by contract: an order, or none when there is a cycle, which ends the program. Targets are paths; suggestions for misspelt ones are left out.
- RelayModel.RelayIsSafe: is about safety; progress is stated only as far as RelayModel.FlowsUntilAReadIsEmpty goes.
- VFIO, PCI and sysfs set-up, feature negotiation and status bits: device registers and kernel interfaces.
- Wayland, EGL, GBM and KMS code, the compositors and the vtest dispatch except its busy wait: they forward to libraries.
- Module loading, scopes, messages, locking and dry runs of `bake`, and making directories for outputs; names are identified with their absolute paths.
- FUSE session handling, and the copying of attributes in getattr and statfs.
- The other scripts and demos.
