/** `my_malloc`, `my_free` and the two Python entry points, tied to the steps of the lifecycle. */
module MemoryPool {
  import opened Wrappers
  import opened ChunkSizes
  import opened DeviceDriver
  import opened CumemAllocator
  import opened MemoryLifecycle

  datatype MallocResult = Null | Pointer(d: nat) | DividedByZero

  class Pool {
    const cumem: Cumem
    var allocs: map<nat, Alloc>

    /** The addresses whose record was left behind by a `my_malloc` that failed, with no memory behind it. */
    ghost var dead: set<nat>

    /** The driver and the records that are not dead. */
    ghost function Abstract(): World
      reads this, cumem, cumem.driver
    {
      World(cumem.driver.handles, cumem.driver.tiles, cumem.driver.reserved, allocs - dead)
    }

    /** What holds after any calls and any failures: every record has a handle cell for each of its chunks. */
    ghost predicate Sound()
      reads this, cumem, cumem.driver
    {
      && cumem.driver.Valid()
      && (forall d :: d in allocs ==> RecordShape(d, allocs[d]))
    }

    /** What holds as long as the driver undoes what it is asked to undo; all that is mapped is open to the device. */
    ghost predicate Valid()
      reads this, cumem, cumem.driver
    {
      && Sound() && Inv(Abstract(), cumem.driver.granularity) && dead <= allocs.Keys
      && cumem.driver.writable == cumem.driver.tiles
    }

    ghost predicate Faultless(before: nat)
      reads this, cumem, cumem.driver
    {
      cumem.driver.faults == before
    }

    constructor (cumem: Cumem)
      requires cumem.driver.Valid() && cumem.errorCode == 0
      requires cumem.driver.handles == {} && cumem.driver.tiles == {} && cumem.driver.reserved == {}
      requires cumem.driver.writable == {}
      ensures this.cumem == cumem && Valid() && allocs == map[] && dead == {}
    {
      this.cumem, allocs, dead := cumem, map[], {};
    }

    /** Nothing failed since the given counts but handle creation, mapping and reservation. */
    ghost predicate OnlySetupFailed(context: nat, access: nat, cleanup: nat, free: nat)
      reads this, cumem, cumem.driver
    {
      && cumem.driver.contextFaults == context && cumem.driver.accessFaults == access
      && cumem.driver.cleanupFaults == cleanup && cumem.driver.freeFaults == free
    }

    /** Driver and live records are as they were, and at most one dead record has come in. */
    twostate predicate FailedClean()
      reads this, cumem, cumem.driver
    {
      && Valid() && Abstract() == old(Abstract())
      && (|| (allocs == old(allocs) && dead == old(dead))
          || (exists d :: d !in old(Abstract().allocs) && d in allocs && dead == old(dead) + {d}
                          && allocs == old(allocs)[d := allocs[d]]))
    }

    /** The driver and all records are as they were. */
    twostate predicate Untouched()
      reads this, cumem, cumem.driver
    {
      && cumem.driver.handles == old(cumem.driver.handles) && cumem.driver.tiles == old(cumem.driver.tiles)
      && cumem.driver.writable == old(cumem.driver.writable)
      && cumem.driver.reserved == old(cumem.driver.reserved) && allocs == old(allocs) && dead == old(dead)
    }

    /**
     * When no driver call fails and no size wraps, the call is an Allocate step at the returned address. When only
     * setup calls fail, driver and live records are left as they were. With an error code left over from before, the
     * call returns null, keeps the code and changes nothing, whatever the driver does and whatever state the pool is
     * in. The division by zero is exactly the wrap of the rounding of the chunk size.
     */
    method Malloc(size: nat, env: Option<nat>) returns (r: MallocResult)
      requires Sound() && size < U64
      modifies `allocs, `dead, cumem`errorCode, cumem.driver
      ensures Sound()
      ensures old(cumem.errorCode) != 0 ==> r == Null && cumem.errorCode != 0 && Untouched()
      ensures r == DividedByZero ==> U64 <= MemCreateChunkSize(env) + cumem.driver.granularity - 1
      ensures
        && Faultless(old(cumem.driver.faults)) && old(cumem.errorCode) == 0
        && U64 <= MemCreateChunkSize(env) + cumem.driver.granularity - 1
        ==> r == DividedByZero
      ensures r.Pointer? ==>
        && r.d in allocs && size <= allocs[r.d].size < size + cumem.driver.granularity
        && allocs[r.d].size % cumem.driver.granularity == 0
        && (forall i :: 0 <= i < |allocs[r.d].sizes| - 1 ==>
              allocs[r.d].sizes[i] == RoundUp(MemCreateChunkSize(env), cumem.driver.granularity))
      ensures
        && Faultless(old(cumem.driver.faults)) && old(cumem.errorCode) == 0 && old(Valid())
        && NoWrap(size, cumem.driver.granularity, env)
        ==>
        && r.Pointer? && r.d in allocs && cumem.errorCode == 0 && Valid()
        && Allocates(old(Abstract()), Abstract(), r.d, allocs[r.d], cumem.driver.granularity)
      ensures
        && r == Null && old(cumem.errorCode) == 0 && old(Valid())
        && OnlySetupFailed(old(cumem.driver.contextFaults), old(cumem.driver.accessFaults),
                           old(cumem.driver.cleanupFaults), old(cumem.driver.freeFaults))
        ==> cumem.errorCode != 0 && FailedClean()
    {
      var ready, g := Setup();
      if !ready {
        return Null;
      }
      RoundUpExactly(size, g);
      RoundUpExactly(MemCreateChunkSize(env), g);
      if NoWrap(size, g, env) {
        NoWrapIsPlanned(size, g, env);
      }
      r := MallocAligned(RoundUp(size, g), RoundUp(MemCreateChunkSize(env), g));
      if r.Pointer? {
        forall i | 0 <= i < |allocs[r.d].sizes| - 1
          ensures allocs[r.d].sizes[i] == RoundUp(MemCreateChunkSize(env), g)
        {
          FullChunks(RoundUp(size, g), RoundUp(MemCreateChunkSize(env), g), i);
        }
      }
    }

    /** `my_malloc` once the aligned size and the aligned chunk size are known. */
    method MallocAligned(aligned: nat, chunk: nat) returns (r: MallocResult)
      requires Sound() && cumem.errorCode == 0 && aligned < U64 && chunk < U64
      modifies `allocs, `dead, cumem`errorCode, cumem.driver
      ensures Sound() && cumem.driver.faults >= old(cumem.driver.faults)
      ensures r.Pointer? ==> cumem.driver.context
      ensures r == DividedByZero ==> chunk == 0
      ensures Faultless(old(cumem.driver.faults)) && chunk == 0 ==> r == DividedByZero
      ensures r.Pointer? ==>
        && 0 < aligned && 0 < chunk && r.d in allocs
        && allocs[r.d].size == aligned && allocs[r.d].sizes == Chunks(aligned, chunk)
      ensures
        && Faultless(old(cumem.driver.faults)) && old(Valid())
        && (0 < aligned ==> Planned(aligned, chunk, cumem.driver.granularity))
        ==>
        && r.Pointer? && r.d in allocs && cumem.errorCode == 0 && Valid()
        && Allocates(old(Abstract()), Abstract(), r.d, allocs[r.d], cumem.driver.granularity)
      ensures
        && r == Null && old(Valid())
        && OnlySetupFailed(old(cumem.driver.contextFaults), old(cumem.driver.accessFaults),
                           old(cumem.driver.cleanupFaults), old(cumem.driver.freeFaults))
        ==> cumem.errorCode != 0 && FailedClean()
    {
      ghost var before, g := Abstract(), cumem.driver.granularity;
      var reserved, d := Reserve(aligned);
      if !reserved {
        return Null;
      }
      if chunk == 0 {
        return DividedByZero;
      }
      var mapped := MapNew(d, aligned, chunk);
      if !mapped {
        if Inv(before, g) {
          FreshRange(before, d, aligned, g);
          LiveRecords(old(allocs), old(dead), d, allocs[d]);
        }
        return Null;
      }
      if Inv(before, g) && Planned(aligned, chunk, g) {
        PlannedIsWellChunked(aligned, chunk, g, allocs[d].hs);
        LiveRecords(old(allocs), old(dead), d, allocs[d]);
        AllocateKeeps(before, Abstract(), d, allocs[d], g);
      }
      return Pointer(d);
    }

    /** Make a context current and ask for the granularity. */
    method Setup() returns (ok: bool, g: nat)
      requires cumem.driver.Valid()
      modifies cumem`errorCode, cumem.driver`faults, cumem.driver`contextFaults, cumem.driver`context
      ensures cumem.driver.Valid() && cumem.driver.faults >= old(cumem.driver.faults)
      ensures ok <==> cumem.errorCode == 0
      ensures cumem.errorCode == 0 <==> old(cumem.errorCode) == 0 && Faultless(old(cumem.driver.faults))
      ensures ok ==>
        && g == cumem.driver.granularity && cumem.driver.context
        && cumem.driver.contextFaults == old(cumem.driver.contextFaults)
    {
      var status := cumem.driver.EnsureContext();
      cumem.Check(status);
      status, g := cumem.driver.Granularity();
      cumem.Check(status);
      return cumem.errorCode == 0, g;
    }

    method Reserve(aligned: nat) returns (ok: bool, d: nat)
      requires cumem.driver.Valid() && cumem.errorCode == 0
      modifies cumem`errorCode, cumem.driver`faults, cumem.driver`reserved
      ensures cumem.driver.Valid() && cumem.driver.faults >= old(cumem.driver.faults)
      ensures ok <==> cumem.errorCode == 0
      ensures ok <==> Faultless(old(cumem.driver.faults))
      ensures !ok ==> cumem.driver.reserved == old(cumem.driver.reserved)
      ensures ok ==>
        && 0 < d && 0 < aligned && cumem.driver.reserved == old(cumem.driver.reserved) + {Range(d, aligned)}
        && (forall r :: r in old(cumem.driver.reserved) ==> Apart(r.addr, r.size, d, aligned))
    {
      var status;
      status, d := cumem.driver.AddressReserve(aligned, 0);
      cumem.Check(status);
      return cumem.errorCode == 0, d;
    }

    /**
     * The second half of `my_malloc`: plan the chunks, record the allocation and map it. After a failing create or
     * map nothing is left in the driver, but the record stays.
     */
    method MapNew(d: nat, aligned: nat, chunk: nat) returns (ok: bool)
      requires Sound() && cumem.errorCode == 0 && 0 < d && aligned < U64 && 0 < chunk < U64
      modifies `allocs, `dead, cumem`errorCode, cumem.driver
      ensures Sound() && cumem.driver.faults >= old(cumem.driver.faults)
      ensures ok <==> Faultless(old(cumem.driver.faults))
      ensures ok ==>
        && cumem.errorCode == 0 && cumem.driver.context && cumem.driver.reserved == old(cumem.driver.reserved)
        && d in allocs && allocs == old(allocs)[d := allocs[d]] && dead == old(dead) - {d}
        && allocs[d].awake && allocs[d].size == aligned && allocs[d].sizes == Chunks(aligned, chunk)
        && FullyMapped(allocs[d].hs, allocs[d].sizes, d, old(cumem.driver.handles), old(cumem.driver.tiles),
                       cumem.driver.handles, cumem.driver.tiles)
        && (old(cumem.driver.writable == cumem.driver.tiles) ==> cumem.driver.writable == cumem.driver.tiles)
      ensures !ok ==>
        && cumem.errorCode != 0 && d in allocs && allocs == old(allocs)[d := allocs[d]] && dead == old(dead) + {d}
        && allocs[d].size == aligned && RecordShape(d, allocs[d])
      ensures
        && !ok
        && OnlySetupFailed(old(cumem.driver.contextFaults), old(cumem.driver.accessFaults),
                           old(cumem.driver.cleanupFaults), old(cumem.driver.freeFaults))
        ==>
        && cumem.driver.handles == old(cumem.driver.handles) && cumem.driver.tiles == old(cumem.driver.tiles)
        && (old(cumem.driver.writable == cumem.driver.tiles) ==> cumem.driver.writable == cumem.driver.tiles)
        && cumem.driver.reserved == old(cumem.driver.reserved) - {Range(d, aligned)}
    {
      var a := PlanChunks(aligned, chunk);
      // The Python callback records the handle cells before anything is mapped.
      allocs := allocs[d := a];
      var hs := Remap(d, a);
      allocs := allocs[d := a.(hs := hs)];
      assert allocs == old(allocs)[d := a.(hs := hs)] && allocs[d] == a.(hs := hs);
      if cumem.errorCode != 0 {
        var status := cumem.driver.AddressFree(d, aligned);
        cumem.Check(status);
        dead := dead + {d};
        return false;
      }
      dead := dead - {d};
      return true;
    }

    /** The chunk sizes, with an empty handle cell for each. */
    method PlanChunks(aligned: nat, chunk: nat) returns (a: Alloc)
      requires aligned < U64 && 0 < chunk < U64
      ensures a.size == aligned && a.sizes == Chunks(aligned, chunk) && a.awake && |a.hs| == |a.sizes|
      ensures Positive(a.sizes) && Sum(a.sizes) <= aligned
    {
      var sizes := FillChunkSizes(aligned, chunk);
      ChunksArePositive(aligned, chunk);
      ChunksFit(aligned, chunk);
      a := Alloc(aligned, sizes[..], seq(sizes.Length, _ => Handle(0, 0)), true);
    }

    /** The record at `d` is live and mapped. */
    ghost predicate Awake(d: nat)
      reads this
    {
      d !in dead && AwakeAt(allocs, d)
    }

    /** The record at `d` is live and not mapped. */
    ghost predicate Asleep(d: nat)
      reads this
    {
      d !in dead && d in allocs && !allocs[d].awake
    }

    /** `python_unmap_and_release`: reports a failure if an error was pending or a driver call failed, and clears it. */
    method Sleep(d: nat) returns (ok: bool)
      requires Sound() && d in allocs
      modifies `allocs, cumem`errorCode, cumem.driver
      ensures Sound() && cumem.errorCode == 0
      ensures ok <==> old(cumem.errorCode) == 0 && Faultless(old(cumem.driver.faults))
      ensures ok && old(Valid() && Awake(d)) ==> Sleeps(old(Abstract()), Abstract(), d) && Valid()
      ensures old(Valid()) && d in dead ==> !ok
    {
      ghost var before, g := Abstract(), cumem.driver.granularity;
      Teardown(d, allocs[d].size);
      if cumem.errorCode != 0 {
        cumem.errorCode := 0;
        return false;
      }
      allocs := allocs[d := allocs[d].(awake := false)];
      if old(Valid() && Awake(d)) {
        SleepKeeps(before, Abstract(), d, g);
      }
      return true;
    }

    /**
     * `python_create_and_map`: maps the recorded chunks again under new handles, and clears the error. After a failing
     * create or map the allocation is still asleep and can be woken again.
     */
    method Wake(d: nat) returns (ok: bool)
      requires Sound() && d in allocs
      modifies `allocs, cumem`errorCode, cumem.driver
      ensures Sound() && cumem.errorCode == 0
      ensures ok <==> old(cumem.errorCode) == 0 && Faultless(old(cumem.driver.faults))
      ensures ok && old(Valid() && Asleep(d)) ==>
        d in allocs && Wakes(old(Abstract()), Abstract(), d, allocs[d].hs) && Valid()
      ensures
        && !ok && old(cumem.errorCode) == 0 && old(Valid() && Asleep(d))
        && OnlySetupFailed(old(cumem.driver.contextFaults), old(cumem.driver.accessFaults),
                           old(cumem.driver.cleanupFaults), old(cumem.driver.freeFaults))
        ==>
        && Valid() && Asleep(d)
        && cumem.driver.handles == old(cumem.driver.handles) && cumem.driver.tiles == old(cumem.driver.tiles)
    {
      ghost var before, g := Abstract(), cumem.driver.granularity;
      var a := allocs[d];
      var hs := Remap(d, a);
      allocs := allocs[d := a.(hs := hs)];
      if cumem.errorCode != 0 {
        cumem.errorCode := 0;
        if old(Valid() && Asleep(d)) {
          LiveRecords(old(allocs), dead, d, allocs[d]);
          AsleepCellsAreFree(before, d, hs, g);
        }
        return false;
      }
      allocs := allocs[d := a.(hs := hs, awake := true)];
      if old(Valid() && Asleep(d)) {
        LiveRecords(old(allocs), dead, d, allocs[d]);
        WakeKeeps(before, Abstract(), d, hs, g);
      }
      return true;
    }

    /** `my_free`: with any size but the recorded one it reports an error. */
    method Free(d: nat, size: nat)
      requires Sound() && d in allocs
      modifies `allocs, `dead, cumem`errorCode, cumem.driver
      ensures Sound()
      ensures cumem.errorCode == 0 <==> old(cumem.errorCode) == 0 && Faultless(old(cumem.driver.faults))
      ensures old(Valid()) && (size != old(allocs[d].size) || d in old(dead)) ==> cumem.errorCode != 0
      ensures cumem.errorCode == 0 && old(Valid() && Awake(d)) ==> Frees(old(Abstract()), Abstract(), d) && Valid()
    {
      ghost var before, g := Abstract(), cumem.driver.granularity;
      Teardown(d, size);
      var status := cumem.driver.AddressFree(d, size);
      cumem.Check(status);
      allocs, dead := allocs - {d}, dead - {d};
      if cumem.errorCode == 0 && old(Valid() && Awake(d)) {
        FreeKeeps(before, Abstract(), d, g);
      }
    }

    /** Copy the recorded handle cells and sizes into arrays, map the chunks and read the cells back. */
    method Remap(d: nat, a: Alloc) returns (hs: seq<Handle>)
      requires cumem.driver.Valid() && |a.hs| == |a.sizes| && Positive(a.sizes)
      modifies cumem`errorCode, cumem.driver`handles, cumem.driver`nextHandle, cumem.driver`tiles,
        cumem.driver`writable, cumem.driver`faults, cumem.driver`cleanupFaults, cumem.driver`accessFaults,
        cumem.driver`contextFaults, cumem.driver`context
      ensures cumem.driver.Valid() && |hs| == |a.hs| && cumem.driver.faults >= old(cumem.driver.faults)
      ensures cumem.errorCode == 0 <==> old(cumem.errorCode) == 0 && Faultless(old(cumem.driver.faults))
      ensures cumem.errorCode == 0 ==> cumem.driver.context && FullyMapped(
        hs, a.sizes, d, old(cumem.driver.handles), old(cumem.driver.tiles), cumem.driver.handles, cumem.driver.tiles)
      ensures cumem.errorCode == 0 && old(cumem.driver.writable == cumem.driver.tiles) && Sum(a.sizes) <= a.size ==>
        cumem.driver.writable == cumem.driver.tiles
      ensures
        && cumem.errorCode != 0 && old(cumem.errorCode) == 0
        && OnlySetupFailed(old(cumem.driver.contextFaults), old(cumem.driver.accessFaults),
                           old(cumem.driver.cleanupFaults), old(cumem.driver.freeFaults))
        ==>
        && cumem.driver.handles == old(cumem.driver.handles) && cumem.driver.tiles == old(cumem.driver.tiles)
        && (old(cumem.driver.writable == cumem.driver.tiles) ==> cumem.driver.writable == cumem.driver.tiles)
    {
      var sizes := new nat[|a.sizes|](i requires 0 <= i < |a.sizes| => a.sizes[i]);
      var cells := new Handle[|a.hs|](i requires 0 <= i < |a.hs| => a.hs[i]);
      assert sizes[..] == a.sizes;
      cumem.CreateAndMap(a.size, d, cells, sizes);
      hs := cells[..];
      if cumem.errorCode == 0 && Sum(a.sizes) <= a.size {
        TilesAreWithin(d, a.(hs := hs), cumem.driver.tiles);
      }
    }

    /** Copy the recorded handles and sizes into arrays and take the mapping down. */
    method Teardown(d: nat, size: nat)
      requires Sound() && d in allocs
      modifies cumem`errorCode, cumem.driver
      ensures cumem.driver.writable == old(cumem.driver.writable) * cumem.driver.tiles
      ensures Sound() && cumem.driver.faults >= old(cumem.driver.faults)
      ensures cumem.errorCode == 0 <==> old(cumem.errorCode) == 0 && Faultless(old(cumem.driver.faults))
      ensures cumem.errorCode == 0 ==> cumem.driver.reserved == old(cumem.driver.reserved)
      ensures cumem.errorCode == 0 && old(Valid()) ==> size == allocs[d].size && d !in dead
      ensures cumem.errorCode == 0 && old(Valid()) && Awake(d) ==> FullyMapped(
        allocs[d].hs, allocs[d].sizes, d,
        cumem.driver.handles, cumem.driver.tiles, old(cumem.driver.handles), old(cumem.driver.tiles))
    {
      var a := allocs[d];
      var sizes := new nat[|a.sizes|](i requires 0 <= i < |a.sizes| => a.sizes[i]);
      var hs := new Handle[|a.hs|](i requires 0 <= i < |a.hs| => a.hs[i]);
      assert sizes[..] == a.sizes && hs[..] == a.hs;
      ghost var w, g := Abstract(), cumem.driver.granularity;
      if Valid() && Awake(d) {
        CanUnmap(w, d, g);
      }
      cumem.UnmapAndRelease(size, d, hs, sizes, w.handles - HandlesOf(a), w.tiles - TilesOf(d, a));
    }
  }

  lemma ChunksArePositive(size: nat, chunk: nat)
    requires size < U64 && 0 < chunk < U64
    ensures Positive(Chunks(size, chunk))
  {
    forall i | 0 <= i < |Chunks(size, chunk)|
      ensures 0 < Chunks(size, chunk)[i]
    {
      ChunkStartsInside(size, chunk, i);
    }
  }

  lemma ChunksFit(size: nat, chunk: nat)
    requires size < U64 && 0 < chunk < U64
    ensures Sum(Chunks(size, chunk)) <= size
  {
    ChunkPrefix(size, chunk, |Chunks(size, chunk)|);
    assert Chunks(size, chunk)[..|Chunks(size, chunk)|] == Chunks(size, chunk);
  }

  /** A range reserved beside the existing ones is none of them. */
  lemma FreshRange(w: World, d: nat, aligned: nat, g: nat)
    requires 0 < g && Inv(w, g) && 0 < aligned
    requires forall r :: r in w.reserved ==> Apart(r.addr, r.size, d, aligned)
    ensures Range(d, aligned) !in w.reserved && d !in w.allocs
  {
    assert d in w.allocs ==> Range(d, w.allocs[d].size) in w.reserved;
  }

  ghost predicate RecordShape(d: nat, a: Alloc) {
    0 < d && |a.hs| == |a.sizes| && Positive(a.sizes)
  }

  /** Writing one record, as live or as dead. */
  lemma LiveRecords(allocs: map<nat, Alloc>, dead: set<nat>, d: nat, a: Alloc)
    ensures allocs[d := a] - (dead - {d}) == (allocs - dead)[d := a]
    ensures d !in dead ==> allocs[d := a] - dead == (allocs - dead)[d := a]
    ensures d !in allocs - dead ==> allocs[d := a] - (dead + {d}) == allocs - dead
  {
  }

  /** Counted as allocations, dead records break the invariant. */
  lemma DeadIsNotLive(allocs: map<nat, Alloc>, dead: set<nat>, d: nat, reserved: set<Range>)
    requires RangesInv(allocs - dead, reserved) && d in dead && d in allocs
    ensures !RangesInv(allocs, reserved)
  {
    assert Range(d, allocs[d].size).addr !in allocs - dead;
    assert Range(d, allocs[d].size) !in reserved;
  }
}
