// Resource and context ids of code/virtio-gpu.c: arrays that grow by doubling, with a free list threaded
// through them by 1-based ids.

module IdTables {
  import opened SeqFacts
  import opened Words

  // struct virtio_gpu_resource (a context entry has `next` only).
  datatype Entry = Entry(next: nat, buf: nat, size: nat)

  // next threads the free ids, and 0 ends them.
  ghost predicate FreeIds(t: seq<Entry>, free: seq<nat>, head: nat) {
    && head == (if free == [] then 0 else free[0]) && (head == 0 <==> free == [])
    && Distinct(free)
    && forall k :: 0 <= k < |free| ==> FreeId(t, free, k)
  }

  ghost predicate FreeId(t: seq<Entry>, free: seq<nat>, k: nat)
    requires k < |free|
  {
    1 <= free[k] <= |t| && t[free[k] - 1].next == if k + 1 < |free| then free[k + 1] else 0
  }

  // Every id is on the free list, or live, or waiting for the device to acknowledge its unref: in
  // exactly one of the three.
  ghost predicate Partition(size: nat, free: seq<nat>, live: set<nat>, waiting: set<nat>) {
    && (forall id :: 1 <= id <= size <==> id in free || id in live || id in waiting)
    && live !! waiting
    && forall id :: id in free ==> id !in live && id !in waiting
  }

  lemma PopFree(t: seq<Entry>, free: seq<nat>, head: nat)
    requires FreeIds(t, free, head) && free != []
    ensures 1 <= head <= |t| && FreeIds(t, free[1..], t[head - 1].next)
    ensures head !in free[1..] && forall id :: id in free <==> id == head || id in free[1..]
  {
    assert FreeId(t, free, 0) && (|free| > 1 ==> FreeId(t, free, 1));
    forall k | 0 <= k < |free| - 1
      ensures FreeId(t, free[1..], k)
    {
      assert FreeId(t, free, k + 1);
    }
    assert free == [free[0]] + free[1..];
  }

  lemma PushFree(t: seq<Entry>, free: seq<nat>, head: nat, id: nat)
    requires FreeIds(t, free, head) && 1 <= id <= |t| && id !in free
    ensures FreeIds(t[id - 1 := t[id - 1].(next := head)], [id] + free, id)
  {
    var u, all := t[id - 1 := t[id - 1].(next := head)], [id] + free;
    forall k | 0 <= k < |all|
      ensures FreeId(u, all, k)
    {
      if k > 0 {
        assert FreeId(t, free, k - 1);
        assert free[k - 1] in free;
      }
    }
  }

  // What is written to an entry besides next does not matter to the free list.
  lemma RelinkFree(t: seq<Entry>, u: seq<Entry>, free: seq<nat>, head: nat)
    requires FreeIds(t, free, head) && |t| == |u| && forall i :: 0 <= i < |t| ==> u[i].next == t[i].next
    ensures FreeIds(u, free, head)
  {
    forall k | 0 <= k < |free|
      ensures FreeId(u, free, k)
    {
      assert FreeId(t, free, k);
    }
  }

  // The backing that the table's callers have given to ids and taken from them, oldest first.
  datatype Backing = Attached(id: nat, buf: nat, size: nat) | Detached(id: nat)

  // The buffer and size that the latest of these events leaves an id with.
  function BackingOf(log: seq<Backing>, id: nat): (nat, nat) {
    if log == [] then (0, 0)
    else
      var e := log[|log| - 1];
      if e.id != id then BackingOf(log[..|log| - 1], id)
      else
        match e
        case Attached(_, buf, size) => (buf, size)
        case Detached(_) => (0, 0)
  }

  // A buffer was attached to the id, and nothing happened to its backing since.
  ghost predicate Backed(log: seq<Backing>, id: nat) {
    exists k :: 0 <= k < |log| && LeftAttached(log, id, k)
  }

  ghost predicate LeftAttached(log: seq<Backing>, id: nat, k: nat)
    requires k < |log|
  {
    && log[k].Attached? && log[k].id == id && log[k].buf != 0
    && forall j :: k < j < |log| ==> log[j].id != id
  }

  lemma {:induction false} BackedMeans(log: seq<Backing>, id: nat)
    ensures Backed(log, id) <==> BackingOf(log, id).0 != 0
    decreases |log|
  {
    if log != [] {
      var last, before := |log| - 1, log[..|log| - 1];
      BackedMeans(before, id);
      if log[last].id != id {
        if k :| 0 <= k < |log| && LeftAttached(log, id, k) {
          assert LeftAttached(before, id, k);
        }
        if k :| 0 <= k < |before| && LeftAttached(before, id, k) {
          assert LeftAttached(log, id, k);
        }
      } else {
        assert forall k :: 0 <= k < last ==> !LeftAttached(log, id, k);
        assert log[last].Attached? && log[last].buf != 0 ==> LeftAttached(log, id, last);
      }
    }
  }

  // An event for one id leaves the others alone.
  lemma BackingStep(log: seq<Backing>, e: Backing, id: nat)
    ensures BackingOf(log + [e], id) ==
      if e.id != id then BackingOf(log, id) else if e.Attached? then (e.buf, e.size) else (0, 0)
  {
    assert (log + [e])[..|log|] == log;
  }

  // Nothing has happened to an id that has never been handed out.
  lemma {:induction false} NoBacking(log: seq<Backing>, id: nat)
    requires forall e <- log :: e.id != id
    ensures BackingOf(log, id) == (0, 0)
    decreases |log|
  {
    if log != [] {
      NoBacking(log[..|log| - 1], id);
    }
  }

  // The table holds what the callers have attached.
  ghost predicate HoldsBacking(t: seq<Entry>, log: seq<Backing>) {
    && (forall e <- log :: 1 <= e.id <= |t|)
    && forall id :: 1 <= id <= |t| ==> (t[id - 1].buf, t[id - 1].size) == BackingOf(log, id)
  }

  lemma BackingAttached(t: seq<Entry>, log: seq<Backing>, e: Backing)
    requires HoldsBacking(t, log) && 1 <= e.id <= |t|
    ensures HoldsBacking(
      t[e.id - 1 := t[e.id - 1].(buf := if e.Attached? then e.buf else 0, size := if e.Attached? then e.size else 0)],
      log + [e])
  {
    forall id | 1 <= id <= |t| ensures BackingOf(log + [e], id) ==
      if e.id != id then BackingOf(log, id) else if e.Attached? then (e.buf, e.size) else (0, 0)
    {
      BackingStep(log, e, id);
    }
  }

  lemma BackingGrows(t: seq<Entry>, log: seq<Backing>)
    requires HoldsBacking(t, log)
    ensures HoldsBacking(t + [Entry(0, 0, 0)], log)
  {
    NoBacking(log, |t| + 1);
  }

  class IdTable {
    var entries: array<Entry>
    var size: nat
    var freeId: nat

    ghost var free: seq<nat>
    ghost var live: set<nat>
    ghost var waiting: set<nat>
    ghost var log: seq<Backing>

    // rscs_cap is the length of the array.
    ghost predicate Valid()
      reads this, entries
    {
      && size <= entries.Length < U32
      && FreeIds(entries[..size], free, freeId)
      && Partition(size, free, live, waiting)
      && HoldsBacking(entries[..size], log)
    }

    // An id can be had: a free one, or a place in the array, or room to double it in 32 bits.
    ghost predicate Roomy()
      reads this
    {
      free != [] || size < entries.Length || size < 0x8000_0000
    }

    constructor ()
      ensures Valid() && fresh(entries) && live == {} && waiting == {} && free == [] && size == 0 && log == []
    {
      entries := new Entry[0];
      size, freeId := 0, 0;
      free, live, waiting, log := [], {}, {}, [];
    }

    // virtio_gpu_resource_alloc, and with `next` alone virtio_gpu_ctx_alloc. An id comes without a buffer
    // exactly if it is new, or if none was left attached to it when it was unreferenced: a reused id keeps
    // its buf and size, and while it is not live nobody attaches or detaches.
    method Alloc() returns (id: nat)
      requires Valid() && Roomy()
      modifies this, entries
      ensures Valid() && (entries == old(entries) || fresh(entries))
      ensures id !in old(live) && id !in old(waiting)
      ensures live == old(live) + {id} && waiting == old(waiting) && log == old(log)
      ensures 1 <= id <= size && (entries[id - 1].buf, entries[id - 1].size) == BackingOf(log, id)
      ensures entries[id - 1].buf == 0 <==> old(free) == [] || !Backed(log, old(free[0]))
      ensures old(free) != [] ==> id == old(free[0]) && free == old(free[1..]) && entries[..] == old(entries[..]) && size == old(size)
      ensures old(free) == [] ==> id == size == old(size) + 1 && free == [] && entries[id - 1] == Entry(0, 0, 0)
    {
      ghost var t := entries[..size];
      hide BackingOf, Backed;
      if freeId != 0 {
        PopFree(t, free, freeId);
        BackedMeans(log, freeId);
        id := freeId;
        freeId := entries[id - 1].next;
        free, live := free[1..], live + {id};
        return;
      }
      if size == entries.Length {
        GrowthIsExact(entries.Length);
        var cap := entries.Length * 2 % U32;
        if cap == 0 {
          cap := 4;
        }
        var grown := new Entry[cap](_ => Entry(0, 0, 0));
        forall i | 0 <= i < size {
          grown[i] := entries[i];
        }
        entries := grown;
      }
      BackingGrows(t, log);
      assert HoldsBacking(t + [Entry(0, 0, 0)], log);
      id := size;
      size := size + 1;
      entries[id] := Entry(0, 0, 0);
      assert entries[..size] == t + [Entry(0, 0, 0)];
      id := id + 1;
      live := live + {id};
    }

    // The assignments of virtio_gpu_resource_attach_backing.
    method Attach(id: nat, buf: nat, bytes: nat)
      requires Valid() && id in live
      modifies `log, entries
      ensures Valid() && log == old(log) + [Attached(id, buf, bytes)]
      ensures 1 <= id <= size && entries[..] == old(entries[..])[id - 1 := old(entries[id - 1]).(buf := buf, size := bytes)]
    {
      ghost var t := entries[..size];
      BackingAttached(t, log, Attached(id, buf, bytes));
      RelinkFree(t, t[id - 1 := t[id - 1].(buf := buf, size := bytes)], free, freeId);
      entries[id - 1] := entries[id - 1].(buf := buf, size := bytes);
      assert entries[..size] == t[id - 1 := t[id - 1].(buf := buf, size := bytes)];
      log := log + [Attached(id, buf, bytes)];
    }

    // The assignments of virtio_gpu_resource_detach_backing.
    method Detach(id: nat)
      requires Valid() && id in live
      modifies `log, entries
      ensures Valid() && log == old(log) + [Detached(id)]
      ensures 1 <= id <= size && entries[..] == old(entries[..])[id - 1 := old(entries[id - 1]).(buf := 0, size := 0)]
    {
      ghost var t := entries[..size];
      BackingAttached(t, log, Detached(id));
      RelinkFree(t, t[id - 1 := t[id - 1].(buf := 0, size := 0)], free, freeId);
      entries[id - 1] := entries[id - 1].(buf := 0, size := 0);
      assert entries[..size] == t[id - 1 := t[id - 1].(buf := 0, size := 0)];
      log := log + [Detached(id)];
    }

    // The id is about to be unreferenced: the device still knows it.
    ghost method Retire(id: nat)
      requires Valid() && id in live
      modifies this
      ensures Valid() && live == old(live) - {id} && waiting == old(waiting) + {id}
      ensures free == old(free) && size == old(size) && entries == old(entries) && log == old(log)
    {
      live, waiting := live - {id}, waiting + {id};
    }

    // The end of virtio_gpu_resource_unref: the device has answered, and the id may be used again.
    method Release(id: nat)
      requires Valid() && id in waiting
      modifies this, entries
      ensures Valid() && entries == old(entries) && size == old(size) && log == old(log)
      ensures live == old(live) && waiting == old(waiting) - {id} && free == [id] + old(free)
      ensures forall i :: 0 <= i < size ==> entries[i].buf == old(entries[i].buf) && entries[i].size == old(entries[i].size)
    {
      ghost var t := entries[..size];
      PushFree(t, free, freeId, id);
      entries[id - 1] := entries[id - 1].(next := freeId);
      assert entries[..size] == t[id - 1 := t[id - 1].(next := freeId)];
      freeId := id;
      free, waiting := [id] + free, waiting - {id};
    }
  }
}

module GpuResources {
  import opened SeqFacts
  import opened QueueProtocol
  import opened DescriptorTable
  import opened GpuFences
  import opened DriverSteps
  import opened GpuSnapshots
  import opened VirtQueues
  import opened GpuDevices
  import opened IdTables

  // One public call of virtio-gpu.c, with the buffers of its command.
  datatype Call =
    | CreateAsync(iov: seq<Iov>)
    | CreateSync(iov: seq<Iov>)
    | Unref(nth: nat, iov: seq<Iov>)
    | AttachTo(nth: nat, buf: nat, bytes: nat, iov: seq<Iov>)
    | DetachFrom(nth: nat, iov: seq<Iov>)
    | CreateContext(iov: seq<Iov>)
    | Plain2d(iov: seq<Iov>)
    | PlainWait(iov: seq<Iov>)
    | FlushScreen(iov: seq<Iov>)
    | Submit(iov: seq<Iov>)
    | BusyWait
  {
    predicate Fits(num: nat) {
      match this
      case BusyWait => true
      case Submit(_) => |iov| == 3
      case Plain2d(_) => 1 <= |iov| <= num
      case PlainWait(_) => 1 <= |iov| <= num
      case _ => |iov| == 2
    }

    predicate Fenced() {
      FlushScreen? || Submit?
    }
  }

  function FencedCalls(calls: seq<Call>): nat {
    if calls == [] then 0
    else FencedCalls(calls[..|calls| - 1]) + if calls[|calls| - 1].Fenced() then 1 else 0
  }

  lemma FencedCallsStep(calls: seq<Call>, i: nat)
    requires i < |calls|
    ensures FencedCalls(calls[..i + 1]) == FencedCalls(calls[..i]) + if calls[i].Fenced() then 1 else 0
  {
    assert calls[..i + 1][..i] == calls[..i];
  }

  // How many resources a call leaves with a caller that has n of them.
  function AliveAfter(n: nat, call: Call): nat {
    match call
    case CreateAsync(_) => n + 1
    case CreateSync(_) => n + 1
    case Unref(nth, _) => if nth < n then n - 1 else n
    case _ => n
  }

  // What a call makes the device read and write: a command carries the request, and for a submission its
  // data, in readable buffers, and the response in a writable one. BusyWait, and a call that names no
  // resource, send nothing.
  function SentBy(n: nat, call: Call): seq<Buffers> {
    match call
    case BusyWait => []
    case Unref(nth, iov) => if nth < n then [Buffers(iov, 1)] else []
    case AttachTo(nth, _, _, iov) => if nth < n then [Buffers(iov, 1)] else []
    case DetachFrom(nth, iov) => if nth < n then [Buffers(iov, 1)] else []
    case Submit(iov) => [Buffers(iov, 2)]
    case _ => [Buffers(call.iov, 1)]
  }

  // The same for a run of calls.
  function Alive(calls: seq<Call>): nat {
    if calls == [] then 0 else AliveAfter(Alive(calls[..|calls| - 1]), calls[|calls| - 1])
  }

  function SentIn(calls: seq<Call>): seq<Buffers> {
    if calls == [] then []
    else
      var before := calls[..|calls| - 1];
      SentIn(before) + SentBy(Alive(before), calls[|calls| - 1])
  }

  lemma NoCalls(calls: seq<Call>)
    ensures Alive(calls[..0]) == 0 && SentIn(calls[..0]) == [] && FencedCalls(calls[..0]) == 0
  {
  }

  lemma CallsStep(calls: seq<Call>, i: nat)
    requires i < |calls|
    ensures Alive(calls[..i + 1]) == AliveAfter(Alive(calls[..i]), calls[i])
    ensures SentIn(calls[..i + 1]) == SentIn(calls[..i]) + SentBy(Alive(calls[..i]), calls[i])
  {
    assert calls[..i + 1][..i] == calls[..i];
  }

  lemma OneMoreOwned(owned: seq<nat>, id: nat)
    requires Distinct(owned) && id !in owned
    ensures Distinct(owned + [id]) && (set x | x in owned + [id]) == (set x | x in owned) + {id}
  {
  }

  lemma OneOwnedLess(owned: seq<nat>, nth: nat)
    requires Distinct(owned) && nth < |owned|
    ensures var left := owned[..nth] + owned[nth + 1..];
      Distinct(left) && (set x | x in left) == (set x | x in owned) - {owned[nth]}
  {
    var left := owned[..nth] + owned[nth + 1..];
    forall x ensures x in left <==> x in owned && x != owned[nth] {
      if x in owned && x != owned[nth] {
        var i :| 0 <= i < |owned| && owned[i] == x;
        assert left[if i < nth then i else i - 1] == x;
      }
    }
  }

  class GpuClient {
    const dev: GpuDev
    const ids: IdTable
    const contexts: IdTable
    // For each id that was ever unreferenced, how many commands had been sent before the latest time.
    ghost var doomed: map<nat, nat>

    ghost predicate Apart()
      reads ids, contexts
    {
      && this as object !in dev.Repr() && ids as object !in dev.Repr() && ids.entries as object !in dev.Repr()
      && contexts as object !in dev.Repr() && contexts.entries as object !in dev.Repr()
      && ids != contexts && ids.entries != contexts.entries
    }

    ghost predicate Valid()
      reads this, dev.Repr(), ids, ids.entries, contexts, contexts.entries
    {
      && Apart()
      && dev.Boundary() && ids.Valid() && ids.waiting == {} && contexts.Valid()
    }

    constructor (num: nat)
      requires Size(num)
      ensures Valid() && dev.queue.q == Initial(num) && ids.live == {} && contexts.live == {}
      ensures fresh(dev.Repr()) && fresh(ids) && fresh(ids.entries) && fresh(contexts) && fresh(contexts.entries)
    {
      hide GpuDev.Valid, GpuDev.Boundary, IdTable.Valid;
      dev := new GpuDev(num);
      ids := new IdTable();
      contexts := new IdTable();
      doomed := map[];
    }

    // virtio_gpu_resource_create_2d: the device learns of the id some time later.
    method Create2d(iov: seq<Iov>) returns (id: nat)
      requires Valid() && ids.Roomy() && |iov| == 2 <= dev.queue.q.num
      modifies dev.Repr(), ids, ids.entries
      ensures Valid() && id !in old(ids.live) && ids.live == old(ids.live) + {id}
      ensures ids.log == old(ids.log) && 1 <= id <= ids.size
      ensures ids.entries[id - 1].buf == 0 <==> old(ids.free) == [] || !Backed(ids.log, old(ids.free[0]))
      ensures dev.queue.q.num == old(dev.queue.q.num) && dev.Submissions() == old(dev.Submissions())
      ensures Issued(old(dev.queue.q), dev.queue.q, iov, 1) && Latest(dev.queue.q) in dev.queue.q.place
      ensures ids.size <= old(ids.size) + 1 && (ids.entries == old(ids.entries) || fresh(ids.entries))
    {
      hide GpuDev.Valid, FencesOk, Quiet;
      id := ids.Alloc();
      hide IdTable.Valid;
      dev.Async(iov, 1);
    }

    // virtio_gpu_resource_create_3d waits for the device.
    method Create3d(iov: seq<Iov>) returns (id: nat)
      requires Valid() && ids.Roomy() && |iov| == 2 <= dev.queue.q.num
      modifies dev.Repr(), ids, ids.entries
      ensures Valid() && id !in old(ids.live) && ids.live == old(ids.live) + {id}
      ensures ids.log == old(ids.log) && 1 <= id <= ids.size
      ensures ids.entries[id - 1].buf == 0 <==> old(ids.free) == [] || !Backed(ids.log, old(ids.free[0]))
      ensures old(ids.free) != [] ==>
        id == old(ids.free[0]) && ids.entries[..] == old(ids.entries[..]) && ids.size == old(ids.size)
      ensures dev.queue.q.num == old(dev.queue.q.num) && dev.Submissions() == old(dev.Submissions())
      ensures Issued(old(dev.queue.q), dev.queue.q, iov, 1) && Latest(dev.queue.q) !in dev.queue.q.chains
      ensures ids.size <= old(ids.size) + 1 && (ids.entries == old(ids.entries) || fresh(ids.entries))
    {
      hide GpuDev.Valid, FencesOk, Quiet;
      id := ids.Alloc();
      hide IdTable.Valid;
      dev.Sync(iov, 1);
    }

    // virtio_gpu_resource_attach_backing: the table is written first.
    method AttachBacking(id: nat, buf: nat, bytes: nat, iov: seq<Iov>)
      requires Valid() && id in ids.live && |iov| == 2 <= dev.queue.q.num
      modifies dev.Repr(), ids, ids.entries
      ensures Valid() && ids.live == old(ids.live) && ids.free == old(ids.free)
      ensures ids.log == old(ids.log) + [Attached(id, buf, bytes)]
      ensures 1 <= id <= ids.size && ids.entries[id - 1].buf == buf && ids.entries[id - 1].size == bytes
      ensures dev.queue.q.num == old(dev.queue.q.num) && dev.Submissions() == old(dev.Submissions())
      ensures Issued(old(dev.queue.q), dev.queue.q, iov, 1) && Latest(dev.queue.q) in dev.queue.q.place
      ensures ids.size == old(ids.size) && ids.entries == old(ids.entries)
    {
      hide GpuDev.Valid, FencesOk, IdTable.Valid, Quiet;
      ids.Attach(id, buf, bytes);
      dev.Async(iov, 1);
    }

    // virtio_gpu_resource_detach_backing
    method DetachBacking(id: nat, iov: seq<Iov>)
      requires Valid() && id in ids.live && |iov| == 2 <= dev.queue.q.num
      modifies dev.Repr(), ids, ids.entries
      ensures Valid() && ids.live == old(ids.live) && ids.free == old(ids.free)
      ensures ids.log == old(ids.log) + [Detached(id)]
      ensures 1 <= id <= ids.size && ids.entries[id - 1].buf == 0 == ids.entries[id - 1].size
      ensures dev.queue.q.num == old(dev.queue.q.num) && dev.Submissions() == old(dev.Submissions())
      ensures Issued(old(dev.queue.q), dev.queue.q, iov, 1) && Latest(dev.queue.q) in dev.queue.q.place
      ensures ids.size == old(ids.size) && ids.entries == old(ids.entries)
    {
      hide GpuDev.Valid, FencesOk, IdTable.Valid, Quiet;
      ids.Detach(id);
      dev.Async(iov, 1);
    }

    // virtio_gpu_ctx_create: contexts are never destroyed.
    method CreateContext(iov: seq<Iov>) returns (id: nat)
      requires Valid() && contexts.Roomy() && |iov| == 2 <= dev.queue.q.num
      modifies dev.Repr(), contexts, contexts.entries
      ensures Valid() && id !in old(contexts.live) && contexts.live == old(contexts.live) + {id}
      ensures dev.queue.q.num == old(dev.queue.q.num) && dev.Submissions() == old(dev.Submissions())
      ensures Issued(old(dev.queue.q), dev.queue.q, iov, 1) && Latest(dev.queue.q) !in dev.queue.q.chains
      ensures contexts.size <= old(contexts.size) + 1
      ensures contexts.entries == old(contexts.entries) || fresh(contexts.entries)
    {
      hide GpuDev.Valid, FencesOk, IdTable.Valid, Quiet;
      id := contexts.Alloc();
      dev.Sync(iov, 1);
    }

    // The id is about to be unreferenced by the next command.
    ghost method Doom(id: nat)
      requires ids.Valid() && id in ids.live
      modifies this`doomed, ids
      ensures ids.Valid() && ids.live == old(ids.live) - {id} && ids.waiting == old(ids.waiting) + {id}
      ensures ids.free == old(ids.free) && ids.size == old(ids.size) && ids.entries == old(ids.entries)
      ensures ids.log == old(ids.log)
      ensures doomed == old(doomed)[id := |dev.queue.q.sent|]
    {
      ids.Retire(id);
      doomed := doomed[id := |dev.queue.q.sent|];
    }

    // The command that unreferences the id has been sent, and the device has returned it.
    ghost predicate Acknowledged(id: nat)
      reads this, dev.queue
    {
      id in doomed && doomed[id] < |dev.queue.q.sent| && dev.queue.q.sent[doomed[id]] !in dev.queue.q.chains
    }

    // Lines 204-205.
    method Recycle(id: nat)
      requires ids.Valid() && id in ids.waiting && Acknowledged(id)
      modifies ids, ids.entries
      ensures ids.Valid() && ids.entries == old(ids.entries) && ids.size == old(ids.size) && ids.log == old(ids.log)
      ensures ids.live == old(ids.live) && ids.waiting == old(ids.waiting) - {id} && ids.free == [id] + old(ids.free)
    {
      ids.Release(id);
    }

    // virtio_gpu_resource_unref: the id goes back to the free list only after the device has answered.
    // What is attached to it stays.
    method ResourceUnref(id: nat, iov: seq<Iov>)
      requires Valid() && id in ids.live && |iov| == 2 <= dev.queue.q.num
      modifies this, dev.Repr(), ids, ids.entries
      ensures Valid() && ids.live == old(ids.live) - {id} && ids.free == [id] + old(ids.free)
      ensures Issued(old(dev.queue.q), dev.queue.q, iov, 1) && Latest(dev.queue.q) !in dev.queue.q.chains
      ensures dev.queue.q.num == old(dev.queue.q.num) && dev.Submissions() == old(dev.Submissions())
      ensures ids.size == old(ids.size) && ids.entries == old(ids.entries) && ids.log == old(ids.log)
    {
      hide GpuDev.Valid, FencesOk, IdTable.Valid, Quiet;
      Doom(id);
      dev.Sync(iov, 1);
      Recycle(id);
    }

    // One call by a caller that owns these resources. An Unref, attach or detach names one of them; a call
    // that names none does nothing.
    method Serve(call: Call, owned: seq<nat>) returns (left: seq<nat>)
      requires Valid() && 3 <= dev.queue.q.num && call.Fits(dev.queue.q.num)
      requires ids.size + 1 < 0x8000_0000 && contexts.size + 1 < 0x8000_0000
      requires Distinct(owned) && ids.live == set id | id in owned
      modifies this, dev.Repr(), ids, ids.entries, contexts, contexts.entries
      ensures Valid() && dev.queue.q.num == old(dev.queue.q.num)
      ensures ids.size <= old(ids.size) + 1 && contexts.size <= old(contexts.size) + 1
      ensures ids.entries == old(ids.entries) || fresh(ids.entries)
      ensures contexts.entries == old(contexts.entries) || fresh(contexts.entries)
      ensures Distinct(left) && ids.live == (set id | id in left) && |left| == AliveAfter(|owned|, call)
      ensures dev.queue.q.carried == old(dev.queue.q.carried) + SentBy(|owned|, call)
      ensures dev.Submissions() == old(dev.Submissions()) + if call.Fenced() then 1 else 0
    {
      hide GpuDev.Valid, GpuDev.Boundary, IdTable.Valid, FencesOk, HoldsBacking, BackingOf, Backed, Quiet, Distinct;
      left := owned;
      match call
      case CreateAsync(iov) =>
        var id := Create2d(iov);
        OneMoreOwned(owned, id);
        left := owned + [id];
      case CreateSync(iov) =>
        var id := Create3d(iov);
        OneMoreOwned(owned, id);
        left := owned + [id];
      case Unref(nth, iov) =>
        if nth < |owned| {
          OneOwnedLess(owned, nth);
          ResourceUnref(owned[nth], iov);
          left := owned[..nth] + owned[nth + 1..];
        }
      case AttachTo(nth, buf, bytes, iov) =>
        if nth < |owned| {
          AttachBacking(owned[nth], buf, bytes, iov);
        }
      case DetachFrom(nth, iov) =>
        if nth < |owned| {
          DetachBacking(owned[nth], iov);
        }
      case CreateContext(iov) => var context := CreateContext(iov);
      case _ => ServeDevice(call);
    }

    // A call that concerns no id.
    method ServeDevice(call: Call)
      requires Valid() && 3 <= dev.queue.q.num && call.Fits(dev.queue.q.num)
      requires call.Plain2d? || call.PlainWait? || call.FlushScreen? || call.Submit? || call.BusyWait?
      modifies dev.Repr()
      ensures Valid() && dev.queue.q.num == old(dev.queue.q.num)
      ensures forall n :: dev.queue.q.carried == old(dev.queue.q.carried) + SentBy(n, call)
      ensures dev.Submissions() == old(dev.Submissions()) + if call.Fenced() then 1 else 0
    {
      hide GpuDev.Valid, GpuDev.Boundary, IdTable.Valid, FencesOk;
      match call
      case Plain2d(iov) => dev.Async(iov, 1);
      case PlainWait(iov) => dev.Sync(iov, 1);
      case FlushScreen(iov) => var fence := dev.Flush(iov);
      case Submit(iov) => dev.SubmitCmd(iov);
      case BusyWait => dev.BusyWait();
    }

    // Any sequence of calls, with any scheduling of the device in between. The run always ends. At its end
    // no descriptor is lost: whatever is allocated is in flight. No fence, command or id is lost either.
    method Run(calls: seq<Call>) returns (owned: seq<nat>)
      requires Valid() && 3 <= dev.queue.q.num && ids.live == {}
      requires ids.size + |calls| < 0x8000_0000 && contexts.size + |calls| < 0x8000_0000
      requires forall i :: 0 <= i < |calls| ==> calls[i].Fits(dev.queue.q.num)
      modifies this, dev.Repr(), ids, ids.entries, contexts, contexts.entries
      ensures Valid() && Distinct(owned) && ids.live == (set id | id in owned) && |owned| == Alive(calls)
      ensures dev.queue.q.carried == old(dev.queue.q.carried) + SentIn(calls)
      ensures dev.Submissions() == old(dev.Submissions()) + FencedCalls(calls)
    {
      hide Valid, Alive, SentIn, FencedCalls, AliveAfter, SentBy;
      owned := [];
      NoCalls(calls);
      for i := 0 to |calls|
        invariant Valid() && dev.queue.q.num == old(dev.queue.q.num)
        invariant ids.size <= old(ids.size) + i && contexts.size <= old(contexts.size) + i
        invariant ids.entries == old(ids.entries) || fresh(ids.entries)
        invariant contexts.entries == old(contexts.entries) || fresh(contexts.entries)
        invariant Distinct(owned) && ids.live == (set id | id in owned) && |owned| == Alive(calls[..i])
        invariant dev.queue.q.carried == old(dev.queue.q.carried) + SentIn(calls[..i])
        invariant dev.Submissions() == old(dev.Submissions()) + FencedCalls(calls[..i])
      {
        FencedCallsStep(calls, i);
        CallsStep(calls, i);
        owned := Serve(calls[i], owned);
      }
      assert calls[..|calls|] == calls;
    }
  }
}

// The commands of code/virgl-virtio.c that create and drop resources.
module VirglResources {
  import opened QueueProtocol
  import opened DescriptorTable
  import opened GpuSnapshots
  import opened GpuDevices
  import opened IdTables
  import opened GpuResources

  class VirglServer {
    const gpu: GpuClient
    // The buffers that vfio_pci_dev_unmap_dma has been called for, in order.
    var unmapped: seq<nat>

    ghost predicate Valid()
      reads this, gpu, gpu.dev.Repr(), gpu.ids, gpu.ids.entries, gpu.contexts, gpu.contexts.entries
    {
      && gpu.Valid() && this as object !in gpu.dev.Repr() && 2 <= gpu.dev.queue.q.num
    }

    constructor (num: nat)
      requires Size(num) && 2 <= num
      ensures Valid() && unmapped == [] && gpu.ids.live == {}
    {
      hide GpuClient.Valid;
      gpu := new GpuClient(num);
      unmapped := [];
    }

    // VCMD_RESOURCE_CREATE2: a buffer, freshly mapped at buf, is attached only if the client wants data.
    method Create(data: nat, buf: nat, iov: seq<Iov>) returns (id: nat)
      requires Valid() && gpu.ids.Roomy() && |iov| == 2
      modifies gpu, gpu.dev.Repr(), gpu.ids, gpu.ids.entries
      ensures Valid() && unmapped == old(unmapped)
      ensures id !in old(gpu.ids.live) && gpu.ids.live == old(gpu.ids.live) + {id}
      ensures old(gpu.ids.free) != [] ==> id == old(gpu.ids.free[0]) && gpu.ids.size == old(gpu.ids.size)
      ensures gpu.ids.log == if data > 0 then old(gpu.ids.log) + [Attached(id, buf, Paged(data))] else old(gpu.ids.log)
      ensures var one := Buffers(iov, 1);
        gpu.dev.queue.q.carried == old(gpu.dev.queue.q.carried) + if data > 0 then [one, one, one] else [one, one]
      ensures gpu.ids.size <= old(gpu.ids.size) + 1
      ensures gpu.ids.entries == old(gpu.ids.entries) || fresh(gpu.ids.entries)
    {
      hide GpuDev.Valid, GpuDev.Boundary, IdTable.Valid, BackingOf, Backed;
      id := gpu.Create3d(iov);
      // virtio_gpu_ctx_attach_resource
      gpu.dev.Sync(iov, 1);
      if data > 0 {
        gpu.AttachBacking(id, buf, Paged(data), iov);
      }
    }

    // VCMD_RESOURCE_UNREF: what the table holds is unmapped, and not detached.
    method Drop(id: nat, iov: seq<Iov>)
      requires Valid() && id in gpu.ids.live && |iov| == 2
      modifies this, gpu, gpu.dev.Repr(), gpu.ids, gpu.ids.entries
      ensures Valid() && gpu.ids.live == old(gpu.ids.live) - {id} && gpu.ids.free == [id] + old(gpu.ids.free)
      ensures gpu.ids.log == old(gpu.ids.log) && gpu.ids.size == old(gpu.ids.size)
      ensures unmapped == old(unmapped) +
        if BackingOf(gpu.ids.log, id).0 != 0 then [BackingOf(gpu.ids.log, id).0] else []
      ensures gpu.dev.queue.q.carried == old(gpu.dev.queue.q.carried) + [Buffers(iov, 1)]
      ensures gpu.ids.entries == old(gpu.ids.entries)
    {
      hide GpuDev.Valid, GpuDev.Boundary, BackingOf, Backed;
      LiveIsInTable(gpu.ids, id);
      var buf := gpu.ids.entries[id - 1].buf;
      if buf != 0 {
        unmapped := unmapped + [buf];
      }
      gpu.ResourceUnref(id, iov);
    }

    // With data, without data: the second resource has the id of the first, and with it its buffer, which
    // is unmapped twice.
    method UnmapsTwice(data: nat, buf: nat, other: nat, iov: seq<Iov>) returns (first: nat, second: nat)
      requires Valid() && gpu.ids.Roomy() && |iov| == 2 && data > 0 && buf != 0
      modifies this, gpu, gpu.dev.Repr(), gpu.ids, gpu.ids.entries
      ensures Valid() && second == first && unmapped == old(unmapped) + [buf, buf]
    {
      hide Valid, BackingOf;
      first := Create(data, buf, iov);
      BackingStep(old(gpu.ids.log), Attached(first, buf, Paged(data)), first);
      Drop(first, iov);
      second := Create(0, other, iov);
      Drop(second, iov);
    }
  }

  // align_up(data, 4096)
  function Paged(data: nat): (r: nat)
    ensures data <= r < data + 4096 && r % 4096 == 0
  {
    (data + 4095) / 4096 * 4096
  }

  lemma LiveIsInTable(ids: IdTable, id: nat)
    requires ids.Valid() && id in ids.live
    ensures 1 <= id <= ids.size <= ids.entries.Length && ids.entries[id - 1].buf == BackingOf(ids.log, id).0
  {
    assert ids.entries[..ids.size][id - 1] == ids.entries[id - 1];
  }
}
