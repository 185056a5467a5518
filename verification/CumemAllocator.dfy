/** Chunked allocation with rollback (`create_and_map`, `unmap_and_release` of cumem_allocator.cpp, ROCm path). */
module CumemAllocator {
  import opened ChunkSizes
  import opened DeviceDriver

  class Cumem {
    const driver: Driver
    var errorCode: int

    constructor (driver: Driver)
      ensures this.driver == driver && errorCode == 0
    {
      this.driver, errorCode := driver, 0;
    }

    /** CUDA_CHECK: remember a failing status. */
    method Check(status: int)
      modifies `errorCode
      ensures errorCode == if status != 0 then status else old(errorCode)
    {
      if status != 0 {
        errorCode := status;
      }
    }

    /** Release the first `k` handles, whatever happens on the way; report the first error. */
    method ReleaseChunks(hs: array<Handle>, k: nat, ghost base: set<Handle>) returns (firstError: int)
      requires driver.Valid() && k <= hs.Length
      modifies driver`handles, driver`faults, driver`cleanupFaults
      ensures driver.Valid()
      ensures firstError == 0 <==> driver.cleanupFaults == old(driver.cleanupFaults)
      ensures driver.faults - old(driver.faults) == driver.cleanupFaults - old(driver.cleanupFaults) >= 0
      ensures
        && firstError == 0 && Distinct(hs[..k]) && base !! HandleSet(hs[..], 0, k)
        && old(driver.handles) == base + HandleSet(hs[..], 0, k)
        ==> driver.handles == base
    {
      firstError := 0;
      ghost var owned := Distinct(hs[..k]) && base !! HandleSet(hs[..], 0, k) &&
        driver.handles == base + HandleSet(hs[..], 0, k);
      for i := 0 to k
        invariant driver.Valid()
        invariant firstError == 0 <==> driver.cleanupFaults == old(driver.cleanupFaults)
        invariant driver.faults - old(driver.faults) == driver.cleanupFaults - old(driver.cleanupFaults) >= 0
        invariant owned && firstError == 0 ==> driver.handles == base + HandleSet(hs[..], i, k)
      {
        if owned {
          assert hs[..][..k] == hs[..k];
          ReleaseOne(base, hs[..], i, k);
        }
        var status := driver.MemRelease(hs[i]);
        if status != 0 && firstError == 0 {
          firstError := status;
        }
      }
    }

    /** Unmap the first `k` chunks, whatever happens on the way; report the first error. */
    method UnmapChunks(d: nat, sizes: array<nat>, k: nat, ghost hs: seq<Handle>, ghost base: set<Tile>)
      returns (firstError: int)
      requires k <= sizes.Length == |hs| && Positive(sizes[..]) && driver.writable <= driver.tiles
      modifies driver`tiles, driver`writable, driver`faults, driver`cleanupFaults
      ensures driver.tiles <= old(driver.tiles) && driver.writable == old(driver.writable) * driver.tiles
      ensures firstError == 0 <==> driver.cleanupFaults == old(driver.cleanupFaults)
      ensures driver.faults - old(driver.faults) == driver.cleanupFaults - old(driver.cleanupFaults) >= 0
      ensures
        && firstError == 0 && Separate(base, d, sizes[..], k)
        && old(driver.tiles) == base + TileSet(d, sizes[..], hs, 0, k)
        ==> driver.tiles == base
    {
      firstError := 0;
      var offset := 0;
      ghost var owned := Separate(base, d, sizes[..], k) && driver.tiles == base + TileSet(d, sizes[..], hs, 0, k);
      for i := 0 to k
        invariant d + offset == AddrAt(d, sizes[..], i)
        invariant driver.tiles <= old(driver.tiles) && driver.writable == old(driver.writable) * driver.tiles
        invariant firstError == 0 <==> driver.cleanupFaults == old(driver.cleanupFaults)
        invariant driver.faults - old(driver.faults) == driver.cleanupFaults - old(driver.cleanupFaults) >= 0
        invariant owned && firstError == 0 ==> driver.tiles == base + TileSet(d, sizes[..], hs, i, k)
      {
        if owned {
          UnmapOne(base, d, sizes[..], hs, i, k);
        }
        SumPrefix(sizes[..], i);
        var status := driver.MemUnmap(d + offset, sizes[i]);
        if status != 0 && firstError == 0 {
          firstError := status;
        }
        offset := offset + sizes[i];
      }
    }

    /**
     * The create loop. From a clear error code it creates every handle or none. From a stale error code it
     * creates one handle and drops it, because the code tests the error code and not the call.
     */
    method CreateChunks(hs: array<Handle>, sizes: array<nat>) returns (ok: bool)
      requires driver.Valid() && hs.Length == sizes.Length
      modifies `errorCode, hs, driver`handles, driver`nextHandle, driver`faults, driver`cleanupFaults
      ensures driver.Valid() && driver.faults >= old(driver.faults)
      ensures ok <==> errorCode == 0 || hs.Length == 0
      ensures errorCode == 0 <==> old(errorCode) == 0 && driver.faults == old(driver.faults)
      ensures driver.faults == old(driver.faults) ==> driver.cleanupFaults == old(driver.cleanupFaults)
      ensures ok ==>
        && driver.faults == old(driver.faults)
        && Backed(hs[..], sizes[..]) && Distinct(hs[..]) && old(driver.handles) !! HandleSet(hs[..], 0, hs.Length)
        && driver.handles == old(driver.handles) + HandleSet(hs[..], 0, hs.Length)
      ensures errorCode != 0 && old(errorCode) == 0 && driver.cleanupFaults == old(driver.cleanupFaults) ==>
        driver.handles == old(driver.handles)
      ensures old(errorCode) != 0 && hs.Length > 0 && driver.faults == old(driver.faults) ==>
        hs[0] !in old(driver.handles) && driver.handles == old(driver.handles) + {hs[0]}
    {
      ghost var base := driver.handles;
      for i := 0 to hs.Length
        invariant driver.Valid() && driver.faults == old(driver.faults) && errorCode == old(errorCode)
        invariant driver.cleanupFaults == old(driver.cleanupFaults)
        invariant errorCode != 0 ==> i == 0
        invariant forall k :: 0 <= k < i ==> hs[k].size == sizes[k]
        invariant Distinct(hs[..i]) && base !! HandleSet(hs[..], 0, i)
        invariant driver.handles == base + HandleSet(hs[..], 0, i)
      {
        var status, handle := driver.MemCreate(sizes[i]);
        if status == 0 {
          ghost var before := hs[..];
          hs[i] := handle;
          KeepPrefix(before, hs[..], i);
          CreateOne(base, hs[..], i);
        }
        Check(status);
        if errorCode != 0 {
          var _ := ReleaseChunks(hs, i, if i == 0 then driver.handles else base);
          return false;
        }
      }
      assert hs[..hs.Length] == hs[..];
      return true;
    }

    /** The map loop: it maps every chunk, or unmaps what it mapped and releases every handle. */
    method MapChunks(d: nat, hs: array<Handle>, sizes: array<nat>, ghost base: set<Handle>) returns (ok: bool)
      requires driver.Valid() && hs.Length == sizes.Length && Positive(sizes[..])
      requires errorCode == 0 || hs.Length == 0
      requires Distinct(hs[..]) && base !! HandleSet(hs[..], 0, hs.Length)
      requires driver.handles == base + HandleSet(hs[..], 0, hs.Length)
      modifies `errorCode, driver`handles, driver`tiles, driver`writable, driver`faults, driver`cleanupFaults
      ensures driver.writable == old(driver.writable) * driver.tiles
      ensures driver.Valid() && driver.faults >= old(driver.faults)
      ensures ok <==> errorCode == 0 || hs.Length == 0
      ensures errorCode == 0 <==> old(errorCode) == 0 && driver.faults == old(driver.faults)
      ensures driver.faults == old(driver.faults) ==> driver.cleanupFaults == old(driver.cleanupFaults)
      ensures ok ==>
        && driver.handles == old(driver.handles) && driver.faults == old(driver.faults)
        && driver.tiles == old(driver.tiles) + TileSet(d, sizes[..], hs[..], 0, hs.Length)
        && Separate(old(driver.tiles), d, sizes[..], sizes.Length)
      ensures !ok && driver.cleanupFaults == old(driver.cleanupFaults) ==>
        driver.handles == base && driver.tiles == old(driver.tiles)
    {
      ghost var mapped := driver.tiles;
      var offset := 0;
      for i := 0 to hs.Length
        invariant driver.faults == old(driver.faults) && errorCode == old(errorCode)
        invariant driver.cleanupFaults == old(driver.cleanupFaults) && driver.handles == old(driver.handles)
        invariant d + offset == AddrAt(d, sizes[..], i)
        invariant driver.writable == old(driver.writable) && driver.Valid()
        invariant driver.tiles == mapped + TileSet(d, sizes[..], hs[..], 0, i)
        invariant Separate(mapped, d, sizes[..], i)
      {
        MapOne(mapped, d, sizes[..], hs[..], i);
        SumPrefix(sizes[..], i);
        var status := driver.MemMap(d + offset, sizes[i], hs[i]);
        Check(status);
        if errorCode != 0 {
          var _ := UnmapChunks(d, sizes, i, hs[..], mapped);
          assert hs[..][..hs.Length] == hs[..];
          var _ := ReleaseChunks(hs, hs.Length, base);
          return false;
        }
        offset := offset + sizes[i];
      }
      return true;
    }

    /**
     * All or nothing, provided that the error code is clear when the create loop starts: a failing create or map
     * leaves the handles and mappings that were there before, and success maps the chunks tile by tile from `d`, each
     * to a handle of its size, and opens every tile between `d` and `d + size` to the device. A failure to set access
     * is not rolled back.
     */
    method CreateAndMap(size: nat, d: nat, hs: array<Handle>, sizes: array<nat>)
      requires driver.Valid() && hs.Length == sizes.Length && Positive(sizes[..])
      modifies `errorCode, hs, driver`handles, driver`nextHandle, driver`tiles, driver`writable, driver`faults,
        driver`cleanupFaults, driver`accessFaults, driver`contextFaults, driver`context
      ensures errorCode == 0 ==> driver.context
      ensures driver.writable ==
        if (errorCode == 0 || hs.Length == 0) && driver.accessFaults == old(driver.accessFaults)
        then old(driver.writable) + TilesWithin(driver.tiles, d, size)
        else old(driver.writable) * driver.tiles
      ensures driver.Valid() && driver.faults >= old(driver.faults)
      ensures errorCode == 0 <==> old(errorCode) == 0 && driver.faults == old(driver.faults)
      ensures driver.faults == old(driver.faults) ==>
        && driver.cleanupFaults == old(driver.cleanupFaults) && driver.contextFaults == old(driver.contextFaults)
        && driver.accessFaults == old(driver.accessFaults)
      // Fully mapped: on success, or when only the access call failed.
      ensures
        && old(errorCode) == 0 && driver.contextFaults == old(driver.contextFaults)
        && (errorCode == 0 || driver.accessFaults != old(driver.accessFaults))
        ==> FullyMapped(hs[..], sizes[..], d, old(driver.handles), old(driver.tiles), driver.handles, driver.tiles)
      // Rolled back: any other failure, unless the driver also refuses to undo a step.
      ensures
        && old(errorCode) == 0 && driver.contextFaults == old(driver.contextFaults) && errorCode != 0
        && driver.accessFaults == old(driver.accessFaults) && driver.cleanupFaults == old(driver.cleanupFaults)
        ==> driver.handles == old(driver.handles) && driver.tiles == old(driver.tiles)
      // An error code when the create loop starts, left over or set by the context call: one handle is lost.
      ensures
        && (old(errorCode) != 0 || driver.contextFaults != old(driver.contextFaults)) && hs.Length > 0
        && driver.faults - old(driver.faults) == driver.contextFaults - old(driver.contextFaults)
        ==>
        && hs[0] !in old(driver.handles) && driver.handles == old(driver.handles) + {hs[0]}
        && driver.tiles == old(driver.tiles)
    {
      var status := driver.EnsureContext();
      Check(status);
      ghost var base := driver.handles;
      var created := CreateChunks(hs, sizes);
      if !created {
        return;
      }
      var mapped := MapChunks(d, hs, sizes, base);
      if !mapped {
        return;
      }
      status := driver.SetAccess(d, size);
      Check(status);
    }

    /**
     * Unmap and release every chunk, then free and re-reserve the address range. No failing call goes
     * unreported; when none fails the chunks are gone and the same range is reserved again.
     */
    method UnmapAndRelease(
      size: nat, d: nat, hs: array<Handle>, sizes: array<nat>, ghost handles: set<Handle>, ghost tiles: set<Tile>)
      requires driver.Valid() && hs.Length == sizes.Length && Positive(sizes[..]) && 0 < d
      modifies `errorCode, driver`handles, driver`tiles, driver`writable, driver`reserved, driver`faults,
        driver`cleanupFaults, driver`contextFaults, driver`context, driver`freeFaults
      ensures errorCode == 0 ==> driver.context
      ensures driver.writable == old(driver.writable) * driver.tiles
      ensures driver.Valid() && driver.faults >= old(driver.faults)
      ensures errorCode == 0 <==> old(errorCode) == 0 && driver.faults == old(driver.faults)
      ensures
        && errorCode == 0
        && FullyMapped(hs[..], sizes[..], d, handles, tiles, old(driver.handles), old(driver.tiles))
        ==> driver.handles == handles && driver.tiles == tiles
      ensures errorCode == 0 ==>
        Range(d, size) in old(driver.reserved) && driver.reserved == old(driver.reserved)
    {
      var status := driver.EnsureContext();
      Check(status);
      var firstError := UnmapChunks(d, sizes, sizes.Length, hs[..], tiles);
      assert hs[..hs.Length] == hs[..];
      status := ReleaseChunks(hs, hs.Length, handles);
      if status != 0 && firstError == 0 {
        firstError := status;
      }
      if firstError == 0 {
        firstError := driver.AddressFree(d, size);
        if firstError == 0 {
          var again;
          firstError, again := driver.AddressReserve(size, d);
          if firstError == 0 && again != d {
            var _ := driver.AddressFree(again, size);
            errorCode := 1;
            return;
          }
        }
      }
      if firstError != 0 {
        Check(firstError);
      }
    }
  }

  /**
   * The handles are new and of the chunks' sizes, and the chunks are mapped, one after the other from `d`, beside
   * what was there.
   */
  ghost predicate FullyMapped(
    hs: seq<Handle>, sizes: seq<nat>, d: nat,
    handles: set<Handle>, tiles: set<Tile>, handles': set<Handle>, tiles': set<Tile>)
  {
    && Backed(hs, sizes) && Distinct(hs) && Separate(tiles, d, sizes, |sizes|)
    && handles !! HandleSet(hs, 0, |hs|) && handles' == handles + HandleSet(hs, 0, |hs|)
    && tiles' == tiles + TileSet(d, sizes, hs, 0, |hs|)
  }

  lemma KeepPrefix(a: seq<Handle>, b: seq<Handle>, i: nat)
    requires i < |a| == |b| && a[..i] == b[..i]
    ensures HandleSet(a, 0, i) == HandleSet(b, 0, i)
  {
    assert forall k :: 0 <= k < i ==> a[k] == a[..i][k] == b[..i][k] == b[k];
  }

  lemma CreateOne(base: set<Handle>, hs: seq<Handle>, i: nat)
    requires i < |hs|
    ensures base + HandleSet(hs, 0, i) + {hs[i]} == base + HandleSet(hs, 0, i + 1)
  {
  }
}
