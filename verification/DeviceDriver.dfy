/** The virtual-memory driver as the allocator sees it: every call may fail, for any reason. */
module DeviceDriver {
  import opened ChunkSizes

  /** A piece of physical memory: its number, and the size it was created with, which the allocator never reads. */
  datatype Handle = Handle(id: nat, size: nat)

  /** Physical memory `handle` mapped at [addr, addr + size). */
  datatype Tile = Tile(addr: nat, size: nat, handle: Handle) {
    predicate Contains(a: nat) {
      addr <= a < addr + size
    }
  }

  /** A reserved virtual-address range. */
  datatype Range = Range(addr: nat, size: nat)

  predicate Apart(a: nat, aSize: nat, b: nat, bSize: nat) {
    a + aSize <= b || b + bSize <= a
  }

  class Driver {
    const granularity: nat
    var handles: set<Handle>
    var tiles: set<Tile>

    /** The tiles that the device may read and write. */
    var writable: set<Tile>
    var reserved: set<Range>
    var nextHandle: nat

    /** The calling thread has a context. */
    var context: bool

    // How many calls have failed, in all and by kind.
    ghost var faults: nat
    ghost var cleanupFaults: nat
    ghost var accessFaults: nat
    ghost var contextFaults: nat
    ghost var freeFaults: nat

    ghost predicate Valid()
      reads this
    {
      0 < granularity < U64 && writable <= tiles && forall h :: h in handles ==> h.id < nextHandle
    }

    constructor (granularity: nat)
      requires 0 < granularity < U64
      ensures Valid() && this.granularity == granularity && handles == {} && tiles == {} && reserved == {}
      ensures writable == {}
    {
      this.granularity := granularity;
      handles, tiles, writable, reserved, nextHandle, context := {}, {}, {}, {}, 0, false;
      faults, cleanupFaults, accessFaults, contextFaults, freeFaults := 0, 0, 0, 0, 0;
    }

    method MemCreate(size: nat) returns (status: int, handle: Handle)
      requires Valid()
      modifies `handles, `nextHandle, `faults
      ensures Valid()
      ensures status == 0 ==>
        && handle !in old(handles) && handles == old(handles) + {handle} && handle.size == size
        && faults == old(faults)
      ensures status != 0 ==> handles == old(handles) && faults == old(faults) + 1
    {
      status, handle := *, Handle(nextHandle, size);
      if status == 0 {
        handles, nextHandle := handles + {handle}, nextHandle + 1;
      } else {
        faults := faults + 1;
      }
    }

    method MemRelease(handle: Handle) returns (status: int)
      requires Valid()
      modifies `handles, `faults, `cleanupFaults
      ensures Valid()
      ensures status == 0 ==>
        && handle in old(handles) && handles == old(handles) - {handle}
        && faults == old(faults) && cleanupFaults == old(cleanupFaults)
      ensures status != 0 ==>
        handles == old(handles) && faults == old(faults) + 1 && cleanupFaults == old(cleanupFaults) + 1
    {
      status := *;
      if handle !in handles && status == 0 {
        status := 1;
      }
      if status == 0 {
        handles := handles - {handle};
      } else {
        faults, cleanupFaults := faults + 1, cleanupFaults + 1;
      }
    }

    /** A mapping succeeds only for a live handle, in its full size, and over addresses that are not mapped yet. */
    method MemMap(addr: nat, size: nat, handle: Handle) returns (status: int)
      modifies `tiles, `faults
      ensures status == 0 ==>
        && handle in handles && handle.size == size && tiles == old(tiles) + {Tile(addr, size, handle)}
        && faults == old(faults) && forall t :: t in old(tiles) ==> Apart(t.addr, t.size, addr, size)
      ensures status != 0 ==> tiles == old(tiles) && faults == old(faults) + 1
    {
      status := *;
      var taken := exists t :: t in tiles && !Apart(t.addr, t.size, addr, size);
      if status == 0 && (handle !in handles || handle.size != size || taken) {
        status := 1;
      }
      if status == 0 {
        tiles := tiles + {Tile(addr, size, handle)};
      } else {
        faults := faults + 1;
      }
    }

    method MemUnmap(addr: nat, size: nat) returns (status: int)
      modifies `tiles, `writable, `faults, `cleanupFaults
      ensures status == 0 ==> writable == set t | t in old(writable) && !(t.addr == addr && t.size == size)
      ensures status != 0 ==> writable == old(writable)
      ensures status == 0 ==>
        && tiles == (set t | t in old(tiles) && !(t.addr == addr && t.size == size))
        && (exists t :: t in old(tiles) && t.addr == addr && t.size == size)
        && faults == old(faults) && cleanupFaults == old(cleanupFaults)
      ensures status != 0 ==>
        tiles == old(tiles) && faults == old(faults) + 1 && cleanupFaults == old(cleanupFaults) + 1
    {
      status := *;
      if status == 0 && !exists t :: t in tiles && t.addr == addr && t.size == size {
        status := 1;
      }
      if status == 0 {
        tiles := set t | t in tiles && !(t.addr == addr && t.size == size);
        writable := set t | t in writable && !(t.addr == addr && t.size == size);
      } else {
        faults, cleanupFaults := faults + 1, cleanupFaults + 1;
      }
    }

    /** A reservation away from a requested address (`hint != 0`) is counted as a fault of the driver. */
    method AddressReserve(size: nat, hint: nat) returns (status: int, addr: nat)
      modifies `reserved, `faults
      ensures status == 0 ==>
        && reserved == old(reserved) + {Range(addr, size)} && 0 < size && 0 < addr
        && (forall r :: r in old(reserved) ==> Apart(r.addr, r.size, addr, size))
        && faults == old(faults) + (if hint != 0 && addr != hint then 1 else 0)
      ensures status != 0 ==> reserved == old(reserved) && faults == old(faults) + 1
    {
      status := *;
      addr := *;
      if status == 0 && (size == 0 || addr == 0 || exists r :: r in reserved && !Apart(r.addr, r.size, addr, size)) {
        status := 1;
      }
      if status == 0 {
        reserved := reserved + {Range(addr, size)};
        faults := faults + if hint != 0 && addr != hint then 1 else 0;
      } else {
        faults := faults + 1;
      }
    }

    /** A range is freed only under the size with which it was reserved. */
    method AddressFree(addr: nat, size: nat) returns (status: int)
      modifies `reserved, `faults, `freeFaults
      ensures status == 0 ==>
        && Range(addr, size) in old(reserved) && reserved == old(reserved) - {Range(addr, size)}
        && faults == old(faults) && freeFaults == old(freeFaults)
      ensures status != 0 ==>
        reserved == old(reserved) && faults == old(faults) + 1 && freeFaults == old(freeFaults) + 1
    {
      status := *;
      if status == 0 && Range(addr, size) !in reserved {
        status := 1;
      }
      if status == 0 {
        reserved := reserved - {Range(addr, size)};
      } else {
        faults, freeFaults := faults + 1, freeFaults + 1;
      }
    }

    method SetAccess(addr: nat, size: nat) returns (status: int)
      modifies `writable, `faults, `accessFaults
      ensures status == 0 ==>
        && writable == old(writable) + TilesWithin(tiles, addr, size)
        && faults == old(faults) && accessFaults == old(accessFaults)
      ensures status != 0 ==>
        writable == old(writable) && faults == old(faults) + 1 && accessFaults == old(accessFaults) + 1
    {
      status := *;
      if status == 0 {
        writable := writable + TilesWithin(tiles, addr, size);
      } else {
        faults, accessFaults := faults + 1, accessFaults + 1;
      }
    }

    method EnsureContext() returns (status: int)
      modifies `faults, `contextFaults, `context
      ensures status == 0 ==> context && faults == old(faults) && contextFaults == old(contextFaults)
      ensures status != 0 ==> faults == old(faults) + 1 && contextFaults == old(contextFaults) + 1
    {
      status := *;
      if status == 0 {
        context := true;
      } else {
        faults, contextFaults := faults + 1, contextFaults + 1;
      }
    }

    method Granularity() returns (status: int, g: nat)
      modifies `faults
      ensures status == 0 ==> g == granularity && faults == old(faults)
      ensures status != 0 ==> faults == old(faults) + 1
    {
      status, g := *, granularity;
      if status != 0 {
        g, faults := *, faults + 1;
      }
    }
  }

  function TilesWithin(tiles: set<Tile>, addr: nat, size: nat): set<Tile> {
    set t | t in tiles && addr <= t.addr && t.addr + t.size <= addr + size
  }

  // ---- The tiles of a chunked allocation ----

  ghost function AddrAt(d: nat, sizes: seq<nat>, i: nat): nat
    requires i <= |sizes|
  {
    d + Sum(sizes[..i])
  }

  ghost function TileAt(d: nat, sizes: seq<nat>, hs: seq<Handle>, i: nat): Tile
    requires i < |sizes| == |hs|
  {
    Tile(AddrAt(d, sizes, i), sizes[i], hs[i])
  }

  ghost function TileSet(d: nat, sizes: seq<nat>, hs: seq<Handle>, lo: nat, hi: nat): set<Tile>
    requires hi <= |sizes| == |hs|
  {
    set i: nat | lo <= i < hi :: TileAt(d, sizes, hs, i)
  }

  ghost function HandleSet(hs: seq<Handle>, lo: nat, hi: nat): set<Handle>
    requires hi <= |hs|
  {
    set i | lo <= i < hi :: hs[i]
  }

  ghost predicate Positive(sizes: seq<nat>) {
    forall i :: 0 <= i < |sizes| ==> 0 < sizes[i]
  }

  /** Every chunk has a handle of its own size. */
  ghost predicate Backed(hs: seq<Handle>, sizes: seq<nat>) {
    |hs| == |sizes| && forall i :: 0 <= i < |hs| ==> hs[i].size == sizes[i]
  }

  ghost predicate Distinct(hs: seq<Handle>) {
    forall i, j :: 0 <= i < j < |hs| ==> hs[i] != hs[j]
  }

  lemma {:induction false} TilesInOrder(d: nat, sizes: seq<nat>, i: nat, j: nat)
    requires i < j <= |sizes|
    ensures AddrAt(d, sizes, i) + sizes[i] <= AddrAt(d, sizes, j)
    decreases j
  {
    SumPrefix(sizes, j - 1);
    if i < j - 1 {
      TilesInOrder(d, sizes, i, j - 1);
    }
  }

  lemma {:induction false} TileFor(d: nat, sizes: seq<nat>, a: nat, n: nat) returns (i: nat)
    requires n <= |sizes| && d <= a < AddrAt(d, sizes, n)
    ensures i < n && AddrAt(d, sizes, i) <= a < AddrAt(d, sizes, i) + sizes[i]
    decreases n
  {
    SumPrefix(sizes, n - 1);
    if AddrAt(d, sizes, n - 1) <= a {
      i := n - 1;
    } else {
      i := TileFor(d, sizes, a, n - 1);
    }
  }

  /** The tiles cover exactly [d, d + size) and no address twice. */
  lemma TilesPartition(d: nat, sizes: seq<nat>, hs: seq<Handle>, a: nat)
    requires |sizes| == |hs|
    ensures d <= a < d + Sum(sizes) <==> exists t :: t in TileSet(d, sizes, hs, 0, |sizes|) && t.Contains(a)
    ensures forall t, u ::
      && t in TileSet(d, sizes, hs, 0, |sizes|) && u in TileSet(d, sizes, hs, 0, |sizes|)
      && t.Contains(a) && u.Contains(a)
      ==> t == u
  {
    var n := |sizes|;
    assert sizes[..n] == sizes;
    if d <= a < d + Sum(sizes) {
      var i := TileFor(d, sizes, a, n);
      assert TileAt(d, sizes, hs, i) in TileSet(d, sizes, hs, 0, n);
    }
    forall t | t in TileSet(d, sizes, hs, 0, n) && t.Contains(a)
      ensures d <= a < d + Sum(sizes)
    {
      var i: nat :| i < n && t == TileAt(d, sizes, hs, i);
      TilesInOrder(d, sizes, i, n);
    }
    forall t, u | t in TileSet(d, sizes, hs, 0, n) && u in TileSet(d, sizes, hs, 0, n) && t.Contains(a) && u.Contains(a)
      ensures t == u
    {
      var i: nat :| i < n && t == TileAt(d, sizes, hs, i);
      var j: nat :| j < n && u == TileAt(d, sizes, hs, j);
      if i < j {
        TilesInOrder(d, sizes, i, j);
      } else if j < i {
        TilesInOrder(d, sizes, j, i);
      }
    }
  }

  /** No tile of `base` could be taken for one of the first `k` tiles of the allocation. */
  ghost predicate Separate(base: set<Tile>, d: nat, sizes: seq<nat>, k: nat)
    requires k <= |sizes|
  {
    forall t, i: nat :: t in base && i < k ==> t.addr != AddrAt(d, sizes, i) || t.size != sizes[i]
  }

  lemma UnmapOne(base: set<Tile>, d: nat, sizes: seq<nat>, hs: seq<Handle>, lo: nat, hi: nat)
    requires lo < hi <= |sizes| == |hs| && Positive(sizes) && Separate(base, d, sizes, hi)
    ensures (set t | && t in base + TileSet(d, sizes, hs, lo, hi)
                     && !(t.addr == AddrAt(d, sizes, lo) && t.size == sizes[lo]))
      == base + TileSet(d, sizes, hs, lo + 1, hi)
  {
    forall i: nat | lo < i < hi
      ensures TileAt(d, sizes, hs, i).addr != AddrAt(d, sizes, lo)
    {
      TilesInOrder(d, sizes, lo, i);
    }
  }

  lemma MapOne(base: set<Tile>, d: nat, sizes: seq<nat>, hs: seq<Handle>, i: nat)
    requires i < |sizes| == |hs|
    ensures base + TileSet(d, sizes, hs, 0, i) + {TileAt(d, sizes, hs, i)} == base + TileSet(d, sizes, hs, 0, i + 1)
  {
  }

  lemma ReleaseOne(base: set<Handle>, hs: seq<Handle>, lo: nat, hi: nat)
    requires lo < hi <= |hs| && Distinct(hs[..hi]) && base !! HandleSet(hs, 0, hi)
    ensures base + HandleSet(hs, lo, hi) - {hs[lo]} == base + HandleSet(hs, lo + 1, hi)
  {
    assert hs[lo] in HandleSet(hs, 0, hi);
    forall i | lo < i < hi
      ensures hs[i] != hs[lo]
    {
      assert hs[..hi][lo] != hs[..hi][i];
    }
  }
}
