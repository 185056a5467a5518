/** Allocate, sleep, wake and free over the chunked allocator: what every run keeps. */
module MemoryLifecycle {
  import opened Wrappers
  import opened ChunkSizes
  import opened DeviceDriver
  import opened CumemAllocator

  datatype Alloc = Alloc(size: nat, sizes: seq<nat>, hs: seq<Handle>, awake: bool)

  /** The driver's state together with the allocations that the Python side has on record, by address. */
  datatype World = World(
    handles: set<Handle>, tiles: set<Tile>, reserved: set<Range>, allocs: map<nat, Alloc>)

  /** Positive multiples of the granularity that add up to the aligned size, each with its own handle cell. */
  ghost predicate WellChunked(a: Alloc, g: nat)
    requires 0 < g
  {
    && |a.hs| == |a.sizes| && Positive(a.sizes) && Sum(a.sizes) == a.size && 0 < a.size
    && (forall i :: 0 <= i < |a.sizes| ==> a.sizes[i] % g == 0)
  }

  ghost function HandlesOf(a: Alloc): set<Handle> {
    HandleSet(a.hs, 0, |a.hs|)
  }

  ghost function TilesOf(d: nat, a: Alloc): set<Tile>
    requires |a.hs| == |a.sizes|
  {
    TileSet(d, a.sizes, a.hs, 0, |a.hs|)
  }

  ghost predicate AwakeAt(allocs: map<nat, Alloc>, d: nat) {
    d in allocs && allocs[d].awake
  }

  ghost predicate AllChunked(allocs: map<nat, Alloc>, g: nat)
    requires 0 < g
  {
    forall d :: d in allocs ==>
      && 0 < d && WellChunked(allocs[d], g)
      && (allocs[d].awake ==> Distinct(allocs[d].hs) && Backed(allocs[d].hs, allocs[d].sizes))
  }

  ghost predicate OwnsHandle(allocs: map<nat, Alloc>, d: nat, h: Handle) {
    AwakeAt(allocs, d) && h in HandlesOf(allocs[d])
  }

  /** The live handles are exactly those of the awake allocations, and no handle has two owners. */
  ghost predicate HandlesInv(allocs: map<nat, Alloc>, handles: set<Handle>) {
    && (forall h :: h in handles <==> exists d :: OwnsHandle(allocs, d, h))
    && (forall c, d, h :: OwnsHandle(allocs, c, h) && OwnsHandle(allocs, d, h) ==> c == d)
  }

  ghost predicate OwnsTile(allocs: map<nat, Alloc>, d: nat, t: Tile) {
    AwakeAt(allocs, d) && |allocs[d].hs| == |allocs[d].sizes| && t in TilesOf(d, allocs[d])
  }

  /** The mapped tiles are exactly those of the awake allocations. */
  ghost predicate TilesInv(allocs: map<nat, Alloc>, tiles: set<Tile>) {
    forall t :: t in tiles <==> exists d :: OwnsTile(allocs, d, t)
  }

  /** The reserved ranges are exactly those of the allocations that are not freed, and they do not overlap. */
  ghost predicate RangesInv(allocs: map<nat, Alloc>, reserved: set<Range>) {
    && (forall r :: r in reserved <==> r.addr in allocs && r.size == allocs[r.addr].size)
    && (forall c, d :: c in allocs && d in allocs && c != d ==> Apart(c, allocs[c].size, d, allocs[d].size))
  }

  ghost predicate Inv(w: World, g: nat)
    requires 0 < g
  {
    && AllChunked(w.allocs, g) && HandlesInv(w.allocs, w.handles)
    && TilesInv(w.allocs, w.tiles) && RangesInv(w.allocs, w.reserved)
  }

  // ---- The four steps ----

  ghost predicate Allocates(w: World, w': World, d: nat, a: Alloc, g: nat)
    requires 0 < g
  {
    && WellChunked(a, g) && a.awake && 0 < d
    && (forall r :: r in w.reserved ==> Apart(r.addr, r.size, d, a.size))
    && FullyMapped(a.hs, a.sizes, d, w.handles, w.tiles, w'.handles, w'.tiles)
    && w'.reserved == w.reserved + {Range(d, a.size)} && w'.allocs == w.allocs[d := a]
  }

  ghost predicate Sleeps(w: World, w': World, d: nat) {
    && AwakeAt(w.allocs, d)
    && FullyMapped(w.allocs[d].hs, w.allocs[d].sizes, d, w'.handles, w'.tiles, w.handles, w.tiles)
    && w'.reserved == w.reserved && w'.allocs == w.allocs[d := w.allocs[d].(awake := false)]
  }

  ghost predicate Wakes(w: World, w': World, d: nat, hs: seq<Handle>) {
    && d in w.allocs && !w.allocs[d].awake
    && FullyMapped(hs, w.allocs[d].sizes, d, w.handles, w.tiles, w'.handles, w'.tiles)
    && w'.reserved == w.reserved && w'.allocs == w.allocs[d := w.allocs[d].(hs := hs, awake := true)]
  }

  ghost predicate Frees(w: World, w': World, d: nat) {
    && AwakeAt(w.allocs, d)
    && FullyMapped(w.allocs[d].hs, w.allocs[d].sizes, d, w'.handles, w'.tiles, w.handles, w.tiles)
    && w'.reserved == w.reserved - {Range(d, w.allocs[d].size)} && w'.allocs == w.allocs - {d}
  }

  // ---- Each step keeps the invariant ----

  /** `allocs'` is `allocs` with allocation `a` mapped at `d`, where nothing was awake. */
  ghost predicate With(allocs: map<nat, Alloc>, d: nat, a: Alloc, allocs': map<nat, Alloc>) {
    && a.awake && |a.hs| == |a.sizes| && !AwakeAt(allocs, d) && d in allocs' && allocs'[d] == a
    && (forall c :: c != d ==> (AwakeAt(allocs', c) <==> AwakeAt(allocs, c)))
    && (forall c :: c != d && AwakeAt(allocs', c) ==> allocs'[c] == allocs[c])
  }

  lemma MapHandles(allocs: map<nat, Alloc>, d: nat, a: Alloc, allocs': map<nat, Alloc>, handles: set<Handle>)
    requires With(allocs, d, a, allocs') && HandlesInv(allocs, handles) && handles !! HandlesOf(a)
    ensures HandlesInv(allocs', handles + HandlesOf(a))
  {
    forall c: nat, h: Handle
      ensures OwnsHandle(allocs', c, h) <==> if c == d then h in HandlesOf(a) else OwnsHandle(allocs, c, h)
    {
    }
    forall h: Handle
      ensures h in handles + HandlesOf(a) <==> exists c :: OwnsHandle(allocs', c, h)
    {
      if h in HandlesOf(a) {
        assert OwnsHandle(allocs', d, h);
      } else if h in handles {
        var c :| OwnsHandle(allocs, c, h);
        assert OwnsHandle(allocs', c, h);
      }
    }
  }

  lemma MapTiles(allocs: map<nat, Alloc>, d: nat, a: Alloc, allocs': map<nat, Alloc>, tiles: set<Tile>)
    requires With(allocs, d, a, allocs') && TilesInv(allocs, tiles)
    ensures TilesInv(allocs', tiles + TilesOf(d, a))
  {
    forall c: nat, t: Tile
      ensures OwnsTile(allocs', c, t) <==> if c == d then t in TilesOf(d, a) else OwnsTile(allocs, c, t)
    {
    }
    forall t
      ensures t in tiles + TilesOf(d, a) <==> exists c :: OwnsTile(allocs', c, t)
    {
      if t in TilesOf(d, a) {
        assert OwnsTile(allocs', d, t);
      } else if t in tiles {
        var c :| OwnsTile(allocs, c, t);
        assert OwnsTile(allocs', c, t);
      }
    }
  }

  /** `allocs'` is `allocs` with the allocation at `d` asleep or gone. */
  ghost predicate Without(allocs: map<nat, Alloc>, d: nat, allocs': map<nat, Alloc>) {
    && (forall c :: AwakeAt(allocs', c) <==> AwakeAt(allocs, c) && c != d)
    && (forall c :: AwakeAt(allocs', c) ==> allocs'[c] == allocs[c])
  }

  lemma UnmapHandles(
    allocs: map<nat, Alloc>, d: nat, allocs': map<nat, Alloc>, handles: set<Handle>, handles': set<Handle>)
    requires AwakeAt(allocs, d) && Without(allocs, d, allocs') && HandlesInv(allocs, handles)
    requires handles' !! HandlesOf(allocs[d]) && handles == handles' + HandlesOf(allocs[d])
    ensures HandlesInv(allocs', handles')
  {
    forall c: nat, h: Handle
      ensures OwnsHandle(allocs', c, h) <==> c != d && OwnsHandle(allocs, c, h)
    {
    }
    forall h: Handle
      ensures h in handles' <==> exists c :: OwnsHandle(allocs', c, h)
    {
      if h in handles' {
        var c :| OwnsHandle(allocs, c, h);
        assert OwnsHandle(allocs', c, h);
      }
      if c :| OwnsHandle(allocs', c, h) {
        assert OwnsHandle(allocs, c, h) && !OwnsHandle(allocs, d, h);
      }
    }
  }

  lemma TileHandle(allocs: map<nat, Alloc>, d: nat, t: Tile)
    requires OwnsTile(allocs, d, t)
    ensures OwnsHandle(allocs, d, t.handle)
  {
    var a := allocs[d];
    var i: nat :| i < |a.hs| && t == TileAt(d, a.sizes, a.hs, i);
    assert a.hs[i] == t.handle;
  }

  lemma UnmapTiles(
    allocs: map<nat, Alloc>, d: nat, allocs': map<nat, Alloc>,
    handles: set<Handle>, tiles: set<Tile>, tiles': set<Tile>)
    requires AwakeAt(allocs, d) && |allocs[d].hs| == |allocs[d].sizes| && Without(allocs, d, allocs')
    requires HandlesInv(allocs, handles) && TilesInv(allocs, tiles)
    requires tiles' !! TilesOf(d, allocs[d]) && tiles == tiles' + TilesOf(d, allocs[d])
    ensures TilesInv(allocs', tiles')
  {
    forall c: nat, t: Tile
      ensures OwnsTile(allocs', c, t) <==> c != d && OwnsTile(allocs, c, t)
    {
    }
    forall t
      ensures t in tiles' <==> exists c :: OwnsTile(allocs', c, t)
    {
      if t in tiles' {
        var c :| OwnsTile(allocs, c, t);
        assert OwnsTile(allocs', c, t);
      }
      if c :| OwnsTile(allocs', c, t) {
        TileHandle(allocs, c, t);
        if OwnsTile(allocs, d, t) {
          TileHandle(allocs, d, t);
        }
      }
    }
  }

  lemma SeparateIsDisjoint(d: nat, a: Alloc, tiles: set<Tile>)
    requires |a.hs| == |a.sizes| && Separate(tiles, d, a.sizes, |a.sizes|)
    ensures tiles !! TilesOf(d, a)
  {
    forall t | t in TilesOf(d, a)
      ensures t !in tiles
    {
      var i: nat :| i < |a.hs| && t == TileAt(d, a.sizes, a.hs, i);
    }
  }

  lemma AllocateKeeps(w: World, w': World, d: nat, a: Alloc, g: nat)
    requires 0 < g && Inv(w, g) && Allocates(w, w', d, a, g)
    ensures d !in w.allocs && Inv(w', g)
  {
    assert d in w.allocs ==> Range(d, w.allocs[d].size) in w.reserved;
    ReserveKeeps(w.allocs, d, a, w.reserved);
    MapHandles(w.allocs, d, a, w'.allocs, w.handles);
    MapTiles(w.allocs, d, a, w'.allocs, w.tiles);
  }

  lemma SleepKeeps(w: World, w': World, d: nat, g: nat)
    requires 0 < g && Inv(w, g) && Sleeps(w, w', d)
    ensures Inv(w', g)
  {
    SeparateIsDisjoint(d, w.allocs[d], w'.tiles);
    UnmapHandles(w.allocs, d, w'.allocs, w.handles, w'.handles);
    UnmapTiles(w.allocs, d, w'.allocs, w.handles, w.tiles, w'.tiles);
  }

  lemma WakeKeeps(w: World, w': World, d: nat, hs: seq<Handle>, g: nat)
    requires 0 < g && Inv(w, g) && Wakes(w, w', d, hs)
    ensures Inv(w', g)
  {
    var a := w.allocs[d].(hs := hs, awake := true);
    MapHandles(w.allocs, d, a, w'.allocs, w.handles);
    MapTiles(w.allocs, d, a, w'.allocs, w.tiles);
  }

  lemma FreeKeeps(w: World, w': World, d: nat, g: nat)
    requires 0 < g && Inv(w, g) && Frees(w, w', d)
    ensures Inv(w', g)
  {
    SeparateIsDisjoint(d, w.allocs[d], w'.tiles);
    UnmapHandles(w.allocs, d, w'.allocs, w.handles, w'.handles);
    UnmapTiles(w.allocs, d, w'.allocs, w.handles, w.tiles, w'.tiles);
  }

  lemma ReserveKeeps(allocs: map<nat, Alloc>, d: nat, a: Alloc, reserved: set<Range>)
    requires d !in allocs && RangesInv(allocs, reserved)
    requires forall r :: r in reserved ==> Apart(r.addr, r.size, d, a.size)
    ensures RangesInv(allocs[d := a], reserved + {Range(d, a.size)})
  {
    forall c | c in allocs
      ensures Apart(c, allocs[c].size, d, a.size)
    {
      assert Range(c, allocs[c].size) in reserved;
    }
  }

  // ---- Whole runs ----

  ghost predicate Step(w: World, w': World, g: nat)
    requires 0 < g
  {
    || (exists d, a :: Allocates(w, w', d, a, g))
    || (exists d :: Sleeps(w, w', d))
    || (exists d, hs :: Wakes(w, w', d, hs))
    || (exists d :: Frees(w, w', d))
  }

  ghost predicate IsRun(ws: seq<World>, g: nat)
    requires 0 < g
  {
    && |ws| > 0 && ws[0] == World({}, {}, {}, map[])
    && (forall k :: 0 <= k < |ws| - 1 ==> Step(ws[k], ws[k + 1], g))
  }

  lemma StepKeeps(w: World, w': World, g: nat)
    requires 0 < g && Inv(w, g) && Step(w, w', g)
    ensures Inv(w', g)
  {
    if d, a :| Allocates(w, w', d, a, g) {
      AllocateKeeps(w, w', d, a, g);
    } else if d :| Sleeps(w, w', d) {
      SleepKeeps(w, w', d, g);
    } else if d, hs :| Wakes(w, w', d, hs) {
      WakeKeeps(w, w', d, hs, g);
    } else {
      var d :| Frees(w, w', d);
      FreeKeeps(w, w', d, g);
    }
  }

  /** Every world of every run of the four steps satisfies the invariant. */
  lemma {:induction false} RunKeeps(ws: seq<World>, g: nat, k: nat)
    requires 0 < g && IsRun(ws, g) && k < |ws|
    ensures Inv(ws[k], g)
    decreases k
  {
    if k > 0 {
      RunKeeps(ws, g, k - 1);
      assert Step(ws[k - 1], ws[k - 1 + 1], g);
      StepKeeps(ws[k - 1], ws[k], g);
    }
  }

  lemma StepKeepsChunks(w: World, w': World, g: nat, e: nat)
    requires 0 < g && Inv(w, g) && Step(w, w', g) && e in w.allocs && e in w'.allocs
    ensures w'.allocs[e].sizes == w.allocs[e].sizes
  {
    if d, a :| Allocates(w, w', d, a, g) {
      AllocateKeeps(w, w', d, a, g);
    }
  }

  /** The address ranges that an allocation's chunks occupy when it is mapped. */
  ghost function Extents(tiles: set<Tile>): set<Range> {
    set t | t in tiles :: Range(t.addr, t.size)
  }

  lemma {:induction false} ChunksPersist(ws: seq<World>, g: nat, d: nat, i: nat, j: nat)
    requires 0 < g && IsRun(ws, g) && i <= j < |ws|
    requires forall k :: i <= k <= j ==> d in ws[k].allocs
    ensures ws[j].allocs[d].sizes == ws[i].allocs[d].sizes
    decreases j
  {
    if i < j {
      ChunksPersist(ws, g, d, i, j - 1);
      RunKeeps(ws, g, j - 1);
      assert Step(ws[j - 1], ws[j - 1 + 1], g);
      StepKeepsChunks(ws[j - 1], ws[j], g, d);
    }
  }

  lemma ExtentsIgnoreHandles(d: nat, sizes: seq<nat>, hs: seq<Handle>, hs': seq<Handle>)
    requires |sizes| == |hs| == |hs'|
    ensures Extents(TileSet(d, sizes, hs, 0, |hs|)) <= Extents(TileSet(d, sizes, hs', 0, |hs'|))
  {
    forall r | r in Extents(TileSet(d, sizes, hs, 0, |hs|))
      ensures r in Extents(TileSet(d, sizes, hs', 0, |hs'|))
    {
      var t :| t in TileSet(d, sizes, hs, 0, |hs|) && r == Range(t.addr, t.size);
      var i: nat :| i < |hs| && t == TileAt(d, sizes, hs, i);
      assert TileAt(d, sizes, hs', i) in TileSet(d, sizes, hs', 0, |hs'|);
    }
  }

  /** However often it sleeps and wakes in between, an unfreed allocation is mapped to the same address ranges. */
  lemma WakeRestores(ws: seq<World>, g: nat, d: nat, i: nat, j: nat)
    requires 0 < g && IsRun(ws, g) && i <= j < |ws|
    requires forall k :: i <= k <= j ==> d in ws[k].allocs
    requires AwakeAt(ws[i].allocs, d) && AwakeAt(ws[j].allocs, d)
    ensures |ws[i].allocs[d].hs| == |ws[i].allocs[d].sizes| && |ws[j].allocs[d].hs| == |ws[j].allocs[d].sizes|
    ensures TilesOf(d, ws[i].allocs[d]) <= ws[i].tiles && TilesOf(d, ws[j].allocs[d]) <= ws[j].tiles
    ensures Extents(TilesOf(d, ws[i].allocs[d])) == Extents(TilesOf(d, ws[j].allocs[d]))
  {
    RunKeeps(ws, g, i);
    RunKeeps(ws, g, j);
    ChunksPersist(ws, g, d, i, j);
    var a, b := ws[i].allocs[d], ws[j].allocs[d];
    OwnTilesMapped(ws[i], d, g);
    OwnTilesMapped(ws[j], d, g);
    ExtentsIgnoreHandles(d, a.sizes, a.hs, b.hs);
    ExtentsIgnoreHandles(d, a.sizes, b.hs, a.hs);
  }

  lemma OwnTilesMapped(w: World, d: nat, g: nat)
    requires 0 < g && Inv(w, g) && AwakeAt(w.allocs, d)
    ensures TilesOf(d, w.allocs[d]) <= w.tiles && HandlesOf(w.allocs[d]) <= w.handles
  {
    forall t | t in TilesOf(d, w.allocs[d])
      ensures t in w.tiles
    {
      assert OwnsTile(w.allocs, d, t);
    }
    forall h: Handle | h in HandlesOf(w.allocs[d])
      ensures h in w.handles
    {
      assert OwnsHandle(w.allocs, d, h);
    }
  }

  // ---- The steps as the code takes them ----

  lemma TileInRange(d: nat, a: Alloc, g: nat, t: Tile)
    requires 0 < g && WellChunked(a, g) && t in TilesOf(d, a)
    ensures d <= t.addr && t.addr + t.size <= d + a.size && 0 < t.size
  {
    var i: nat :| i < |a.hs| && t == TileAt(d, a.sizes, a.hs, i);
    TilesInOrder(d, a.sizes, i, |a.sizes|);
    assert a.sizes[..|a.sizes|] == a.sizes;
  }

  /** All tiles of an allocation lie between its address and its end. */
  lemma TilesAreWithin(d: nat, a: Alloc, tiles: set<Tile>)
    requires |a.hs| == |a.sizes| && Sum(a.sizes) <= a.size && TilesOf(d, a) <= tiles
    ensures TilesOf(d, a) <= TilesWithin(tiles, d, a.size)
  {
    forall i: nat | i < |a.hs|
      ensures TileAt(d, a.sizes, a.hs, i) in TilesWithin(tiles, d, a.size)
    {
      TilesInOrder(d, a.sizes, i, |a.sizes|);
      assert a.sizes[..|a.sizes|] == a.sizes;
      assert TileAt(d, a.sizes, a.hs, i) in TilesOf(d, a);
    }
  }

  /** Under the invariant an awake allocation is mapped beside everything else, so that it can be taken away. */
  lemma CanUnmap(w: World, d: nat, g: nat)
    requires 0 < g && Inv(w, g) && AwakeAt(w.allocs, d)
    ensures var a := w.allocs[d];
      FullyMapped(a.hs, a.sizes, d, w.handles - HandlesOf(a), w.tiles - TilesOf(d, a), w.handles, w.tiles)
  {
    var a := w.allocs[d];
    OwnTilesMapped(w, d, g);
    forall t, i: nat | t in w.tiles - TilesOf(d, a) && i < |a.sizes|
      ensures t.addr != AddrAt(d, a.sizes, i) || t.size != a.sizes[i]
    {
      var c :| OwnsTile(w.allocs, c, t);
      TileInRange(c, w.allocs[c], g, t);
      TileInRange(d, a, g, TileAt(d, a.sizes, a.hs, i));
    }
  }

  /** The handle cells of a sleeping allocation are free to change. */
  lemma AsleepCellsAreFree(w: World, d: nat, hs: seq<Handle>, g: nat)
    requires 0 < g && Inv(w, g) && d in w.allocs && !w.allocs[d].awake && |hs| == |w.allocs[d].hs|
    ensures Inv(w.(allocs := w.allocs[d := w.allocs[d].(hs := hs)]), g)
  {
    var allocs := w.allocs[d := w.allocs[d].(hs := hs)];
    forall c: nat, h: Handle
      ensures OwnsHandle(allocs, c, h) <==> OwnsHandle(w.allocs, c, h)
    {
    }
    forall c: nat, t: Tile
      ensures OwnsTile(allocs, c, t) <==> OwnsTile(w.allocs, c, t)
    {
    }
  }

  /** The three additions of the size arithmetic stay below 2^64. */
  predicate NoWrap(size: nat, g: nat, env: Option<nat>)
    requires 0 < g
  {
    && size + g - 1 < U64 && MemCreateChunkSize(env) + g - 1 < U64
    && RoundUp(size, g) + RoundUp(MemCreateChunkSize(env), g) - 1 < U64
  }

  /** Both sizes are multiples of the granularity and the chunk count does not wrap. */
  predicate Planned(aligned: nat, chunk: nat, g: nat)
    requires 0 < g
  {
    0 < aligned < U64 && 0 < chunk < U64 && aligned % g == 0 && chunk % g == 0 && aligned + chunk - 1 < U64
  }

  lemma NoWrapIsPlanned(size: nat, g: nat, env: Option<nat>)
    requires size < U64 && 0 < g < U64 && NoWrap(size, g, env)
    ensures 0 < RoundUp(size, g) ==> Planned(RoundUp(size, g), RoundUp(MemCreateChunkSize(env), g), g)
  {
    RoundUpExactly(size, g);
    RoundUpExactly(MemCreateChunkSize(env), g);
  }

  /** A planned allocation is cut into positive multiples of the granularity that add up to its size. */
  lemma PlannedIsWellChunked(aligned: nat, chunk: nat, g: nat, hs: seq<Handle>)
    requires 0 < g && Planned(aligned, chunk, g) && |hs| == |Chunks(aligned, chunk)|
    ensures WellChunked(Alloc(aligned, Chunks(aligned, chunk), hs, true), g)
  {
    ChunksSumExactly(aligned, chunk);
    forall i | 0 <= i < |Chunks(aligned, chunk)|
      ensures 0 < Chunks(aligned, chunk)[i] && Chunks(aligned, chunk)[i] % g == 0
    {
      ChunkShape(aligned, chunk, g, i);
    }
  }
}
