// GPU memory accounting: the per-device counters
// (src/memory/memory_manager.hpp), the pool of freed device allocations
// that later requests may reuse (src/memory/memory_pool.cpp), and the
// memory-type search of the "Memory Allocation" chapter of the Vulkan
// specification (src/memory.hpp).
module Memory {
  import opened Wrappers

  /** The six counters of a memory manager. */
  datatype Counters = Counters(deviceBufferMemory: int, deviceBufferCount: int,
                               deviceImageMemory: int, deviceImageCount: int,
                               hostBufferMemory: int, hostBufferCount: int)

  const Zero := Counters(0, 0, 0, 0, 0, 0)

  /** The counter kinds, one pair of counters each. */
  datatype Kind = DeviceBuffer | DeviceImage | HostBuffer

  /** The counters after `add_X(sz)` (`delta` = 1) or `remove_X(sz)`
      (`delta` = -1). */
  function Count(c: Counters, k: Kind, sz: int, delta: int): (r: Counters)
    ensures k.DeviceBuffer? ==> r == c.(deviceBufferMemory := c.deviceBufferMemory + delta * sz,
                                        deviceBufferCount := c.deviceBufferCount + delta)
    ensures k.DeviceImage? ==> r == c.(deviceImageMemory := c.deviceImageMemory + delta * sz,
                                       deviceImageCount := c.deviceImageCount + delta)
    ensures k.HostBuffer? ==> r == c.(hostBufferMemory := c.hostBufferMemory + delta * sz,
                                      hostBufferCount := c.hostBufferCount + delta)
  {
    match k
    case DeviceBuffer => c.(deviceBufferMemory := c.deviceBufferMemory + delta * sz,
                            deviceBufferCount := c.deviceBufferCount + delta)
    case DeviceImage => c.(deviceImageMemory := c.deviceImageMemory + delta * sz,
                           deviceImageCount := c.deviceImageCount + delta)
    case HostBuffer => c.(hostBufferMemory := c.hostBufferMemory + delta * sz,
                          hostBufferCount := c.hostBufferCount + delta)
  }

  /** `device_memory_used`: device buffers plus device images. */
  function DeviceUsed(c: Counters): int
  {
    c.deviceBufferMemory + c.deviceImageMemory
  }

  /** Removing undoes adding, for every kind and size. */
  lemma RemoveUndoesAdd(c: Counters, k: Kind, sz: int)
    ensures Count(Count(c, k, sz, 1), k, sz, -1) == c
  {
  }

  /** Host memory never counts as device memory, and each device kind adds
      exactly its size. */
  lemma DeviceUsedByKind(c: Counters, k: Kind, sz: int, delta: int)
    ensures DeviceUsed(Count(c, k, sz, delta)) == DeviceUsed(c) + (if k.HostBuffer? then 0 else delta * sz)
  {
  }

  /** `MemoryManager`: the counters behind one device (the mutex is left
      out; the model is sequential). */
  class MemoryManager {
    var c: Counters

    constructor ()
      ensures c == Zero
    {
      c := Zero;
    }

    /** `add_device_buffer`, `add_device_image`, `add_host_buffer`. */
    method Add(k: Kind, sz: int)
      modifies this
      ensures c == Count(old(c), k, sz, 1)
    {
      c := Count(c, k, sz, 1);
    }

    /** `remove_device_buffer`, `remove_device_image`, `remove_host_buffer`. */
    method Remove(k: Kind, sz: int)
      modifies this
      ensures c == Count(old(c), k, sz, -1)
    {
      c := Count(c, k, sz, -1);
    }

    method DeviceMemoryUsed() returns (r: int)
      ensures r == DeviceUsed(c)
    {
      r := c.deviceBufferMemory + c.deviceImageMemory;
    }
  }

  // ---- find_memory_index --------------------------------------------------

  /** Memory type `i` is allowed by `mask` and has every desired property. */
  predicate Suits(props: seq<bv32>, mask: bv32, desired: bv32, i: nat)
    requires i < |props|
  {
    LowBit(Shifted(mask, i)) && HasAll(props[i], desired)
  }

  predicate LowBit(x: bv32)
  {
    x & 1 == 1
  }

  /** `flags` holds every bit of `desired`. */
  predicate HasAll(flags: bv32, desired: bv32)
  {
    flags & desired == desired
  }

  /** `mask` shifted right by one bit `i` times. */
  function Shifted(mask: bv32, i: nat): bv32
  {
    if i == 0 then mask else Shifted(mask, i - 1) >> 1
  }

  lemma ShiftedStep(mask: bv32, i: nat)
    ensures Shifted(mask, i + 1) == Shifted(mask, i) >> 1
  {
  }

  /** `find_memory_index`: the first memory type whose bit is set in the
      compatible mask and whose property flags hold every desired bit; it
      throws when there is none. */
  method FindMemoryIndex(props: seq<bv32>, compatible: bv32, desired: bv32) returns (r: Result<nat>)
    ensures r.Ok? ==> r.value < |props| && Suits(props, compatible, desired, r.value)
    ensures r.Ok? ==> forall j :: 0 <= j < r.value ==> !Suits(props, compatible, desired, j)
    ensures r.Err? ==> forall j :: 0 <= j < |props| ==> !Suits(props, compatible, desired, j)
  {
    var mask := compatible;
    var i: nat := 0;
    while i < |props|
      invariant 0 <= i <= |props| && mask == Shifted(compatible, i)
      invariant forall j :: 0 <= j < i ==> !Suits(props, compatible, desired, j)
    {
      if LowBit(mask) && HasAll(props[i], desired) {
        assert Suits(props, compatible, desired, i);
        return Ok(i);
      }
      assert !Suits(props, compatible, desired, i);
      ShiftedStep(compatible, i);
      mask := mask >> 1;
      i := i + 1;
    }
    return Err("Could not find a matching memory type");
  }

  // ---- MemoryPool -----------------------------------------------------------

  const HostVisibleBit: bv32 := 0x2
  const ReuseTolerance := 5000000

  /** A pooled allocation and the record of a live one. */
  datatype Alloc = Alloc(mem: int, size: nat, flags: bv32, typeIndex: nat)
  datatype AllocInfo = AllocInfo(size: nat, flags: bv32, typeIndex: nat)

  /** The counters an allocation of these flags is charged to. */
  function KindOf(flags: bv32): Kind
  {
    if flags & HostVisibleBit != 0 then HostBuffer else DeviceImage
  }

  /** A pooled block may serve a request: same type and flags, at least as
      large and less than the tolerance larger. */
  predicate Reusable(e: Alloc, size: nat, flags: bv32, typeIndex: nat)
  {
    size <= e.size && e.typeIndex == typeIndex && e.flags == flags && e.size - size < ReuseTolerance
  }

  /** The first reusable block of the pool, in pool order. */
  function FirstReusable(pool: seq<Alloc>, size: nat, flags: bv32, typeIndex: nat): (r: Option<nat>)
    ensures r.Some? ==> r.value < |pool| && Reusable(pool[r.value], size, flags, typeIndex)
    ensures r.Some? ==> forall j :: 0 <= j < r.value ==> !Reusable(pool[j], size, flags, typeIndex)
    ensures r.None? ==> forall j :: 0 <= j < |pool| ==> !Reusable(pool[j], size, flags, typeIndex)
    decreases |pool|
  {
    if pool == [] then None
    else if Reusable(pool[0], size, flags, typeIndex) then Some(0)
    else
      match FirstReusable(pool[1..], size, flags, typeIndex)
      case None => None
      case Some(i) => Some(i + 1)
  }

  predicate SortedBySize(pool: seq<Alloc>)
  {
    forall i, j :: 0 <= i < j < |pool| ==> pool[i].size <= pool[j].size
  }

  /** The state of a pool and of its device's counters. */
  datatype PoolState = PoolState(pool: seq<Alloc>, allocs: map<int, AllocInfo>, counters: Counters)

  /** `allocate`: the first reusable pooled block leaves the pool and is
      handed out; otherwise `newMem` (the handle `vkAllocateMemory` returns)
      is recorded with the request and charged to the counters. */
  function PoolAllocate(s: PoolState, size: nat, flags: bv32, typeIndex: nat, newMem: int): (PoolState, int)
  {
    match FirstReusable(s.pool, size, flags, typeIndex)
    case Some(i) => (s.(pool := s.pool[..i] + s.pool[i + 1..]), s.pool[i].mem)
    case None => (s.(allocs := s.allocs[newMem := AllocInfo(size, flags, typeIndex)],
                     counters := Count(s.counters, KindOf(flags), size, 1)), newMem)
  }

  /** `_destroy`: an unknown handle changes nothing; a known one is
      uncharged and forgotten. */
  function PoolDestroy(s: PoolState, mem: int): (PoolState, bool)
  {
    if mem !in s.allocs then (s, false)
    else
      var info := s.allocs[mem];
      (s.(allocs := s.allocs - {mem}, counters := Count(s.counters, KindOf(info.flags), info.size, -1)), true)
  }

  /** `trim(limit)`: while device usage exceeds the limit, the largest
      pooled block (the back) is popped and destroyed; an empty pool stops
      the loop. */
  function PoolTrim(s: PoolState, limit: int): (r: PoolState)
    decreases |s.pool|
  {
    if DeviceUsed(s.counters) <= limit || s.pool == [] then s
    else
      var back := s.pool[|s.pool| - 1];
      PoolTrim(PoolDestroy(s.(pool := s.pool[..|s.pool| - 1]), back.mem).0, limit)
  }

  /** Reuse hands out a block that suits the request and takes it out of
      the pool, keeping the order of the others; a miss charges the size. */
  lemma AllocateSpec(s: PoolState, size: nat, flags: bv32, typeIndex: nat, newMem: int)
    ensures var (t, mem) := PoolAllocate(s, size, flags, typeIndex, newMem);
            (exists i :: 0 <= i < |s.pool| && Reusable(s.pool[i], size, flags, typeIndex)) ==>
              |t.pool| == |s.pool| - 1 && mem in (set e | e in s.pool :: e.mem) &&
              t.allocs == s.allocs && t.counters == s.counters
    ensures var (t, mem) := PoolAllocate(s, size, flags, typeIndex, newMem);
            (forall i :: 0 <= i < |s.pool| ==> !Reusable(s.pool[i], size, flags, typeIndex)) ==>
              t.pool == s.pool && mem == newMem && mem in t.allocs && t.allocs[mem] == AllocInfo(size, flags, typeIndex) &&
              DeviceUsed(t.counters) == DeviceUsed(s.counters) + (if flags & HostVisibleBit != 0 then 0 else size)
  {
    var r := FirstReusable(s.pool, size, flags, typeIndex);
    if r.Some? {
      var i := r.value;
      assert s.pool[i] in s.pool;
    } else {
      DeviceUsedByKind(s.counters, KindOf(flags), size, 1);
    }
  }

  /** Taking a block out keeps the pool sorted. */
  lemma AllocateSorted(s: PoolState, size: nat, flags: bv32, typeIndex: nat, newMem: int)
    requires SortedBySize(s.pool)
    ensures SortedBySize(PoolAllocate(s, size, flags, typeIndex, newMem).0.pool)
  {
    var r := FirstReusable(s.pool, size, flags, typeIndex);
    if r.Some? {
      var i := r.value;
      var p := s.pool[..i] + s.pool[i + 1..];
      forall a, b | 0 <= a < b < |p|
        ensures p[a].size <= p[b].size
      {
        var a' := if a < i then a else a + 1;
        var b' := if b < i then b else b + 1;
        assert p[a] == s.pool[a'] && p[b] == s.pool[b'];
      }
    }
  }

  /** Trimming only pops from the back, and it ends within the limit unless
      the pool ran out. */
  lemma {:induction false} TrimSpec(s: PoolState, limit: int)
    ensures var t := PoolTrim(s, limit);
            |t.pool| <= |s.pool| && t.pool == s.pool[..|t.pool|] &&
            (DeviceUsed(t.counters) <= limit || t.pool == [])
    decreases |s.pool|
  {
    if !(DeviceUsed(s.counters) <= limit || s.pool == []) {
      var back := s.pool[|s.pool| - 1];
      var s1 := PoolDestroy(s.(pool := s.pool[..|s.pool| - 1]), back.mem).0;
      TrimSpec(s1, limit);
      var t := PoolTrim(s1, limit);
      assert s1.pool == s.pool[..|s.pool| - 1];
      assert t.pool == s.pool[..|s.pool| - 1][..|t.pool|];
    }
  }

  /** A trim that stays within the limit changes nothing. */
  lemma TrimWithinLimit(s: PoolState, limit: int)
    requires DeviceUsed(s.counters) <= limit
    ensures PoolTrim(s, limit) == s
  {
  }

  /** The pool with `e` placed after every block no larger than it: the
      pool `std::sort` may leave after `push_back(e)`. */
  function Insert(pool: seq<Alloc>, e: Alloc): (r: seq<Alloc>)
    ensures |r| == |pool| + 1
    ensures r[0] == (if pool == [] || e.size < pool[0].size then e else pool[0])
  {
    if pool == [] then [e]
    else if e.size < pool[0].size then [e] + pool
    else [pool[0]] + Insert(pool[1..], e)
  }

  /** Insertion adds exactly `e`. */
  lemma {:induction false} InsertPermutes(pool: seq<Alloc>, e: Alloc)
    ensures multiset(Insert(pool, e)) == multiset(pool) + multiset{e}
  {
    if pool != [] && e.size >= pool[0].size {
      InsertPermutes(pool[1..], e);
      assert pool == [pool[0]] + pool[1..];
    }
  }

  /** Insertion keeps a pool sorted by size. */
  lemma {:induction false} InsertSorted(pool: seq<Alloc>, e: Alloc)
    requires SortedBySize(pool)
    ensures SortedBySize(Insert(pool, e))
  {
    if pool != [] && e.size >= pool[0].size {
      var rest := Insert(pool[1..], e);
      InsertSorted(pool[1..], e);
      var r := [pool[0]] + rest;
      forall a, b | 0 <= a < b < |r|
        ensures r[a].size <= r[b].size
      {
        if a == 0 {
          assert r[b] == rest[b - 1];
          assert pool[0].size <= rest[0].size;
        } else {
          assert r[a] == rest[a - 1] && r[b] == rest[b - 1];
        }
      }
    }
  }

  /** `deallocate`: an untracked handle changes nothing; a tracked one
      joins the pool, which stays sorted by size (a handle given back
      twice is pooled twice). */
  function PoolDeallocate(s: PoolState, mem: int): (PoolState, bool)
  {
    if mem !in s.allocs then (s, false)
    else
      var info := s.allocs[mem];
      (s.(pool := Insert(s.pool, Alloc(mem, info.size, info.flags, info.typeIndex))), true)
  }

  /** Giving back a tracked block adds exactly it to the pool, sorted;
      nothing else changes. */
  lemma DeallocateSpec(s: PoolState, mem: int)
    requires SortedBySize(s.pool)
    ensures var (t, ok) := PoolDeallocate(s, mem);
            ok == (mem in s.allocs) && t.allocs == s.allocs && t.counters == s.counters && SortedBySize(t.pool) &&
            multiset(t.pool) == multiset(s.pool) + (if ok then multiset{Alloc(mem, s.allocs[mem].size, s.allocs[mem].flags, s.allocs[mem].typeIndex)} else multiset{})
  {
    if mem in s.allocs {
      var info := s.allocs[mem];
      InsertPermutes(s.pool, Alloc(mem, info.size, info.flags, info.typeIndex));
      InsertSorted(s.pool, Alloc(mem, info.size, info.flags, info.typeIndex));
    }
  }

  /** Destroying a known block uncharges what allocating it charged. */
  lemma DestroyAfterAllocate(s: PoolState, size: nat, flags: bv32, typeIndex: nat, newMem: int)
    requires forall i :: 0 <= i < |s.pool| ==> !Reusable(s.pool[i], size, flags, typeIndex)
    requires newMem !in s.allocs
    ensures var (t, mem) := PoolAllocate(s, size, flags, typeIndex, newMem);
            PoolDestroy(t, mem) == (s, true)
  {
    var r := FirstReusable(s.pool, size, flags, typeIndex);
    assert r.None?;
    var t := PoolAllocate(s, size, flags, typeIndex, newMem).0;
    assert t.allocs - {newMem} == s.allocs;
    RemoveUndoesAdd(s.counters, KindOf(flags), size);
  }

  /** `MemoryPool` with its device's memory manager. */
  class MemoryPool {
    var pool: seq<Alloc>
    var allocs: map<int, AllocInfo>
    const manager: MemoryManager

    ghost predicate Valid()
      reads this
    {
      SortedBySize(pool)
    }

    function State(): PoolState
      reads this, manager
    {
      PoolState(pool, allocs, manager.c)
    }

    constructor (manager: MemoryManager)
      ensures Valid() && pool == [] && allocs == map[] && this.manager == manager
    {
      this.manager := manager;
      pool, allocs := [], map[];
    }

    method Allocate(size: nat, flags: bv32, typeIndex: nat, newMem: int) returns (mem: int)
      requires Valid()
      modifies this, manager
      ensures Valid()
      ensures (State(), mem) == PoolAllocate(old(State()), size, flags, typeIndex, newMem)
    {
      ghost var s := State();
      AllocateSorted(s, size, flags, typeIndex, newMem);
      var i := 0;
      while i < |pool|
        invariant 0 <= i <= |pool| && pool == s.pool && State() == s
        invariant forall j :: 0 <= j < i ==> !Reusable(pool[j], size, flags, typeIndex)
      {
        var e := pool[i];
        if size > e.size || e.typeIndex != typeIndex || e.flags != flags {
          i := i + 1;
          continue;
        }
        if e.size - size < ReuseTolerance {
          assert FirstReusable(s.pool, size, flags, typeIndex) == Some(i);
          pool := pool[..i] + pool[i + 1..];
          return e.mem;
        }
        i := i + 1;
      }
      assert FirstReusable(s.pool, size, flags, typeIndex).None?;
      manager.Add(KindOf(flags), size);
      allocs := allocs[newMem := AllocInfo(size, flags, typeIndex)];
      mem := newMem;
    }

    method Deallocate(mem: int) returns (ok: bool)
      requires Valid()
      modifies this
      ensures Valid()
      ensures (State(), ok) == PoolDeallocate(old(State()), mem)
    {
      if mem !in allocs {
        return false;
      }
      var info := allocs[mem];
      InsertSorted(pool, Alloc(mem, info.size, info.flags, info.typeIndex));
      pool := Insert(pool, Alloc(mem, info.size, info.flags, info.typeIndex));
      ok := true;
    }

    method Destroy(mem: int) returns (ok: bool)
      modifies this, manager
      ensures pool == old(pool)
      ensures (State(), ok) == PoolDestroy(old(State()), mem)
    {
      if mem !in allocs {
        return false;
      }
      var info := allocs[mem];
      manager.Remove(KindOf(info.flags), info.size);
      allocs := allocs - {mem};
      ok := true;
    }

    method Trim(limit: int)
      requires Valid()
      modifies this, manager
      ensures Valid()
      ensures State() == PoolTrim(old(State()), limit)
    {
      var current := manager.DeviceMemoryUsed();
      while current > limit
        invariant Valid() && current == DeviceUsed(manager.c)
        invariant PoolTrim(State(), limit) == PoolTrim(old(State()), limit)
        decreases |pool|
      {
        if pool == [] {
          return;
        }
        var back := pool[|pool| - 1];
        pool := pool[..|pool| - 1];
        var _ := Destroy(back.mem);
        current := manager.DeviceMemoryUsed();
      }
    }
  }
}
