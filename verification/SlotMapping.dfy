/** Context-parallel KV-cache slot mapping (`_compute_slot_mapping_torch`). */
module SlotMapping {
  import opened Arithmetic

  const PAD_SLOT_ID := -1

  // ---- Which rank owns an offset, and where ----

  function RankOf(off: nat, interleave: nat, world: nat): nat
    requires 0 < interleave && 0 < world
  {
    (off / interleave) % world
  }

  function LocalOf(off: nat, interleave: nat, world: nat): nat
    requires 0 < interleave && 0 < world
  {
    MulPositive(world, interleave);
    (off / (world * interleave)) * interleave + off % interleave
  }

  /** The offset that `rank` stores at local offset `local`. */
  function OffsetOf(rank: nat, local: nat, interleave: nat, world: nat): nat
    requires 0 < interleave && 0 < world
  {
    (local / interleave) * (world * interleave) + rank * interleave + local % interleave
  }

  /** Round `c` of the round robin, rank `r`, element `x` of the interleave group: the three digits of an offset. */
  lemma Digits(c: nat, r: nat, x: nat, interleave: nat, world: nat)
    requires 0 < interleave && 0 < world && r < world && x < interleave
    ensures var n := c * (world * interleave) + r * interleave + x;
      && 0 < world * interleave
      && n % interleave == x
      && RankOf(n, interleave, world) == r
      && n / (world * interleave) == c
      && n % (world * interleave) == r * interleave + x
      && LocalOf(n, interleave, world) == c * interleave + x
  {
    var cycle := world * interleave;
    MulPositive(world, interleave);
    var n := c * cycle + r * interleave + x;
    assert n == (c * world + r) * interleave + x by {
      assert c * cycle == c * world * interleave;
    }
    DivUnique(n, interleave, c * world + r, x);
    DivUnique(c * world + r, world, c, r);
    assert r * interleave + x < cycle by {
      MulLe(r + 1, world, interleave);
    }
    DivUnique(n, cycle, c, r * interleave + x);
  }

  /** Every offset is made of such digits. */
  lemma ToDigits(n: nat, interleave: nat, world: nat) returns (c: nat, r: nat, x: nat)
    requires 0 < interleave && 0 < world
    ensures r < world && x < interleave && n == c * (world * interleave) + r * interleave + x
    ensures r == RankOf(n, interleave, world)
  {
    var group := n / interleave;
    c, r, x := group / world, group % world, n % interleave;
    assert n == (c * world + r) * interleave + x;
    assert c * world * interleave == c * (world * interleave);
  }

  /** A virtual block splits evenly: one rank only, or whole interleave groups in a block. */
  predicate SplitsEvenly(blockSize: nat, interleave: nat, world: nat)
    requires 0 < interleave
  {
    world == 1 || blockSize % interleave == 0
  }

  lemma LowDigits(r: nat, x: nat, interleave: nat, world: nat)
    requires x < interleave && r < world
    ensures r * interleave + x < world * interleave
  {
    MulLe(r + 1, world, interleave);
  }

  /** With whole groups in a block, an offset is in the virtual block exactly when its local offset is in the block. */
  lemma RoundBound(c: nat, r: nat, x: nat, blockSize: nat, interleave: nat, world: nat)
    requires 0 < interleave && r < world && x < interleave && blockSize % interleave == 0
    ensures c * (world * interleave) + (r * interleave + x) < blockSize * world <==> c * interleave + x < blockSize
  {
    var groups := blockSize / interleave;
    assert blockSize == groups * interleave;
    LowDigits(r, x, interleave, world);
    HighDigit(c, r * interleave + x, world * interleave, groups);
    HighDigit(c, x, interleave, groups);
    assert groups * (world * interleave) == groups * interleave * world;
  }

  lemma OneRankOffset(c: nat, r: nat, x: nat, interleave: nat, world: nat)
    requires world == 1 && r < world
    ensures c * (world * interleave) + r * interleave + x == c * interleave + x
  {
    assert world * interleave == interleave && r * interleave == 0;
  }

  /** Owner and local offset of a virtual-block offset are in range, and the offset is recovered from them. */
  lemma OffsetRoundTrip(off: nat, blockSize: nat, interleave: nat, world: nat)
    requires 0 < blockSize && 0 < interleave && 0 < world
    requires SplitsEvenly(blockSize, interleave, world) && off < blockSize * world
    ensures RankOf(off, interleave, world) < world
    ensures LocalOf(off, interleave, world) < blockSize
    ensures OffsetOf(RankOf(off, interleave, world), LocalOf(off, interleave, world), interleave, world) == off
  {
    var c, r, x := ToDigits(off, interleave, world);
    Digits(c, r, x, interleave, world);
    DivUnique(c * interleave + x, interleave, c, x);
    if world != 1 {
      RoundBound(c, r, x, blockSize, interleave, world);
    }
  }

  /** Conversely every rank and local offset names one offset of the virtual block. */
  lemma LocalRoundTrip(rank: nat, local: nat, blockSize: nat, interleave: nat, world: nat)
    requires 0 < blockSize && 0 < interleave && 0 < world
    requires SplitsEvenly(blockSize, interleave, world) && rank < world && local < blockSize
    ensures var off := OffsetOf(rank, local, interleave, world);
      && off < blockSize * world
      && RankOf(off, interleave, world) == rank
      && LocalOf(off, interleave, world) == local
  {
    var c, x := local / interleave, local % interleave;
    assert local == c * interleave + x;
    Digits(c, rank, x, interleave, world);
    var off := c * (world * interleave) + rank * interleave + x;
    assert off == OffsetOf(rank, local, interleave, world);
    if world == 1 {
      OneRankOffset(c, rank, x, interleave, world);
    } else {
      RoundBound(c, rank, x, blockSize, interleave, world);
    }
  }

  /**
   * Even splitting is exactly what keeps local offsets inside a block: otherwise some offset of the virtual
   * block gets local offset `blockSize`, which is the first slot of the next physical block.
   */
  lemma LocalInRangeExactly(blockSize: nat, interleave: nat, world: nat)
    requires 0 < blockSize && 0 < interleave && 0 < world
    ensures SplitsEvenly(blockSize, interleave, world) <==>
      forall off: nat :: off < blockSize * world ==> LocalOf(off, interleave, world) < blockSize
  {
    if SplitsEvenly(blockSize, interleave, world) {
      forall off: nat | off < blockSize * world
        ensures LocalOf(off, interleave, world) < blockSize
      {
        OffsetRoundTrip(off, blockSize, interleave, world);
      }
    } else {
      var _ := UnevenOffset(blockSize, interleave, world);
    }
  }

  lemma UnevenOffset(blockSize: nat, interleave: nat, world: nat) returns (off: nat)
    requires 0 < blockSize && 0 < interleave && 0 < world && !SplitsEvenly(blockSize, interleave, world)
    ensures off < blockSize * world && RankOf(off, interleave, world) == 0
    ensures LocalOf(off, interleave, world) == blockSize
  {
    var groups, rem := blockSize / interleave, blockSize % interleave;
    off := groups * (world * interleave) + rem;
    Digits(groups, 0, rem, interleave, world);
    assert blockSize * world == groups * (world * interleave) + rem * world;
    MulLe(2, world, rem);
  }

  // ---- The mapping of one token ----

  datatype Cp = Cp(
    blockSize: nat, interleave: nat,
    pcpWorld: nat, dcpWorld: nat, pcpRank: nat, dcpRank: nat)
  {
    function World(): nat {
      pcpWorld * dcpWorld
    }

    function Rank(): nat {
      pcpRank * dcpWorld + dcpRank
    }

    function VirtualBlockSize(): nat {
      blockSize * World()
    }

    predicate Valid() {
      && 0 < blockSize && 0 < interleave
      && pcpRank < pcpWorld && dcpRank < dcpWorld
    }

    predicate Even() {
      Valid() && SplitsEvenly(blockSize, interleave, World())
    }

    lemma WorldPositive()
      requires Valid()
      ensures 0 < World() && 0 < VirtualBlockSize()
    {
      MulPositive(pcpWorld, dcpWorld);
      MulPositive(blockSize, World());
    }
  }

  /** The two parallel ranks number the world without gaps or repeats. */
  lemma RankIsMixedRadix(cp: Cp)
    requires cp.Valid()
    ensures cp.Rank() < cp.World()
    ensures cp.Rank() / cp.dcpWorld == cp.pcpRank && cp.Rank() % cp.dcpWorld == cp.dcpRank
  {
    DivUnique(cp.Rank(), cp.dcpWorld, cp.pcpRank, cp.dcpRank);
    MulLe(cp.pcpRank + 1, cp.pcpWorld, cp.dcpWorld);
  }

  function BlockIndex(cp: Cp, pos: nat): nat
    requires cp.Valid()
  {
    cp.WorldPositive();
    pos / cp.VirtualBlockSize()
  }

  function BlockOffset(cp: Cp, pos: nat): nat
    requires cp.Valid()
  {
    cp.WorldPositive();
    pos - BlockIndex(cp, pos) * cp.VirtualBlockSize()
  }

  /** The rank of the world that stores position `pos`. */
  function Owner(cp: Cp, pos: nat): nat
    requires cp.Valid()
  {
    cp.WorldPositive();
    RankOf(BlockOffset(cp, pos), cp.interleave, cp.World())
  }

  function SlotOf(cp: Cp, row: seq<nat>, pos: nat): int
    requires cp.Valid() && BlockIndex(cp, pos) < |row|
  {
    cp.WorldPositive();
    if Owner(cp, pos) == cp.Rank()
    then row[BlockIndex(cp, pos)] * cp.blockSize + LocalOf(BlockOffset(cp, pos), cp.interleave, cp.World())
    else PAD_SLOT_ID
  }

  lemma BlockOffsetInRange(cp: Cp, pos: nat)
    requires cp.Valid()
    ensures BlockOffset(cp, pos) < cp.VirtualBlockSize()
  {
    cp.WorldPositive();
  }

  /** A slot holds the block number and, with the rank, the offset: the position can be read back from it. */
  lemma SlotRoundTrip(cp: Cp, row: seq<nat>, pos: nat)
    requires cp.Even() && BlockIndex(cp, pos) < |row|
    requires SlotOf(cp, row, pos) != PAD_SLOT_ID
    ensures 0 < cp.World()
    ensures SlotOf(cp, row, pos) >= 0
    ensures SlotOf(cp, row, pos) / cp.blockSize == row[BlockIndex(cp, pos)]
    ensures BlockIndex(cp, pos) * cp.VirtualBlockSize()
      + OffsetOf(cp.Rank(), SlotOf(cp, row, pos) % cp.blockSize, cp.interleave, cp.World()) == pos
  {
    cp.WorldPositive();
    BlockOffsetInRange(cp, pos);
    var off := BlockOffset(cp, pos);
    OffsetRoundTrip(off, cp.blockSize, cp.interleave, cp.World());
    DivUnique(SlotOf(cp, row, pos), cp.blockSize, row[BlockIndex(cp, pos)], LocalOf(off, cp.interleave, cp.World()));
  }

  /** The same configuration seen by rank `r` of the world. */
  function AtRank(cp: Cp, r: nat): Cp
    requires 0 < cp.dcpWorld
  {
    cp.(pcpRank := r / cp.dcpWorld, dcpRank := r % cp.dcpWorld)
  }

  lemma AtRankIsRank(cp: Cp, r: nat)
    requires cp.Valid() && r < cp.World()
    ensures AtRank(cp, r).Valid() && AtRank(cp, r).Rank() == r && AtRank(cp, r).World() == cp.World()
  {
    HighDigit(r / cp.dcpWorld, r % cp.dcpWorld, cp.dcpWorld, cp.pcpWorld);
  }

  lemma OwnerInWorld(cp: Cp, pos: nat)
    requires cp.Valid()
    ensures Owner(cp, pos) < cp.World()
  {
    cp.WorldPositive();
  }

  /** Exactly one rank of the world stores a position: every other rank writes PAD for it. */
  lemma {:induction false} OneRankOwns(cp: Cp, row: seq<nat>, pos: nat, r: nat)
    requires cp.Valid() && BlockIndex(cp, pos) < |row| && r < cp.World()
    ensures AtRank(cp, r).Valid() && BlockIndex(AtRank(cp, r), pos) == BlockIndex(cp, pos)
    ensures SlotOf(AtRank(cp, r), row, pos) != PAD_SLOT_ID <==> r == Owner(cp, pos)
  {
    AtRankIsRank(cp, r);
  }

  // ---- The whole buffer ----

  /** The request boundaries: `query_start_loc` rises from 0 to the number of tokens. */
  ghost predicate Boundaries(starts: seq<nat>, numTokens: nat) {
    && |starts| > 0 && starts[0] == 0 && starts[|starts| - 1] == numTokens
    && (forall i, j :: 0 <= i <= j < |starts| ==> starts[i] <= starts[j])
  }

  ghost predicate InRequest(starts: seq<nat>, req: nat, k: nat) {
    req + 1 < |starts| && starts[req] <= k < starts[req + 1]
  }

  /** Every token's block is in its request's row of the table. */
  ghost predicate RowsReach(cp: Cp, table: seq<seq<nat>>, starts: seq<nat>, positions: seq<nat>)
    requires cp.Valid() && Boundaries(starts, |positions|)
  {
    && |starts| - 1 <= |table|
    && (forall req: nat, k: nat :: InRequest(starts, req, k) ==>
          k < |positions| && BlockIndex(cp, positions[k]) < |table[req]|)
  }

  /** Every token entry up to request `reqs` holds the slot of its position. */
  ghost predicate Mapped(
    cp: Cp, table: seq<seq<nat>>, starts: seq<nat>, positions: seq<nat>, slots: seq<int>, reqs: nat)
    requires cp.Valid() && Boundaries(starts, |positions|) && RowsReach(cp, table, starts, positions)
    requires reqs < |starts| && |positions| <= |slots|
  {
    forall req: nat, k: nat :: req < reqs && InRequest(starts, req, k) ==>
      slots[k] == SlotOf(cp, table[req], positions[k])
  }

  method ComputeSlotMapping(
    cp: Cp, table: seq<seq<nat>>, starts: seq<nat>, positions: seq<nat>, maxTokens: nat, sm: array<int>)
    requires cp.Valid() && Boundaries(starts, |positions|) && RowsReach(cp, table, starts, positions)
    requires |positions| <= sm.Length && maxTokens <= sm.Length
    modifies sm
    ensures Mapped(cp, table, starts, positions, sm[..], |starts| - 1)
    ensures forall k :: |positions| <= k < maxTokens ==> sm[k] == PAD_SLOT_ID
    ensures forall k :: |positions| <= k < sm.Length && maxTokens <= k ==> sm[k] == old(sm[k])
  {
    for req := 0 to |starts| - 1
      invariant Mapped(cp, table, starts, positions, sm[..], req)
      invariant forall k :: |positions| <= k < sm.Length ==> sm[k] == old(sm[k])
    {
      var start, end := starts[req], starts[req + 1];
      if start >= end {
        continue;
      }
      forall k | start <= k < end {
        sm[k] := SlotOf(cp, table[req], positions[k]);
      }
    }
    if |positions| < maxTokens {
      forall k | |positions| <= k < maxTokens {
        sm[k] := PAD_SLOT_ID;
      }
    }
  }

  /** The boundaries leave no token without a request. */
  lemma RequestOf(starts: seq<nat>, numTokens: nat, k: nat) returns (req: nat)
    requires Boundaries(starts, numTokens) && k < numTokens
    ensures InRequest(starts, req, k)
  {
    req := 0;
    while starts[req + 1] <= k
      invariant req + 1 < |starts| && starts[req] <= k
      decreases |starts| - req
    {
      req := req + 1;
    }
  }

  /** Two tokens share a block number only if they share request and block index. */
  ghost predicate BlocksDistinct(cp: Cp, table: seq<seq<nat>>, starts: seq<nat>, positions: seq<nat>)
    requires cp.Valid() && Boundaries(starts, |positions|) && RowsReach(cp, table, starts, positions)
  {
    forall a: nat, j: nat, b: nat, k: nat ::
      InRequest(starts, a, j) && InRequest(starts, b, k) &&
      table[a][BlockIndex(cp, positions[j])] == table[b][BlockIndex(cp, positions[k])] ==>
        a == b && BlockIndex(cp, positions[j]) == BlockIndex(cp, positions[k])
  }

  ghost predicate PositionsDistinct(starts: seq<nat>, positions: seq<nat>)
    requires Boundaries(starts, |positions|)
  {
    forall req: nat, j: nat, k: nat :: InRequest(starts, req, j) && InRequest(starts, req, k) && j < k ==>
      k < |positions| && positions[j] != positions[k]
  }

  lemma SameSlot(cp: Cp, rowP: seq<nat>, p: nat, rowQ: seq<nat>, q: nat)
    requires cp.Even() && BlockIndex(cp, p) < |rowP| && BlockIndex(cp, q) < |rowQ|
    requires SlotOf(cp, rowP, p) == SlotOf(cp, rowQ, q) != PAD_SLOT_ID
    ensures rowP[BlockIndex(cp, p)] == rowQ[BlockIndex(cp, q)]
    ensures BlockIndex(cp, p) == BlockIndex(cp, q) ==> p == q
  {
    SlotRoundTrip(cp, rowP, p);
    SlotRoundTrip(cp, rowQ, q);
  }

  /** No two tokens are written to the same cache slot. */
  lemma NoCollision(
    cp: Cp, table: seq<seq<nat>>, starts: seq<nat>, positions: seq<nat>, slots: seq<int>, j: nat, k: nat)
    requires cp.Even() && Boundaries(starts, |positions|) && RowsReach(cp, table, starts, positions)
    requires |positions| <= |slots| && Mapped(cp, table, starts, positions, slots, |starts| - 1)
    requires BlocksDistinct(cp, table, starts, positions) && PositionsDistinct(starts, positions)
    requires j < k < |positions| && slots[j] != PAD_SLOT_ID
    ensures slots[j] != slots[k]
  {
    var a := RequestOf(starts, |positions|, j);
    var b := RequestOf(starts, |positions|, k);
    if slots[j] == slots[k] {
      SameSlot(cp, table[a], positions[j], table[b], positions[k]);
    }
  }

  ghost predicate DistinctBlocks(row: seq<nat>) {
    forall i, j :: 0 <= i < j < |row| ==> row[i] != row[j]
  }

  /** On rank `r`, two positions of a request with distinct blocks are written to one slot. */
  ghost predicate Collides(cp: Cp, r: nat, row: seq<nat>, p: nat, q: nat)
    requires cp.Valid()
  {
    && DistinctBlocks(row) && p != q && AtRank(cp, r).Valid()
    && BlockIndex(AtRank(cp, r), p) < |row| && BlockIndex(AtRank(cp, r), q) < |row|
    && SlotOf(AtRank(cp, r), row, p) == SlotOf(AtRank(cp, r), row, q) != PAD_SLOT_ID
  }

  /** Without an even split, rank 0 writes a position of one block and the first of the next to the same slot. */
  lemma UnevenCollides(cp: Cp, n: nat) returns (p: nat, q: nat)
    requires cp.Valid() && !cp.Even()
    ensures p < q && Collides(cp, 0, [n, n + 1], p, q)
  {
    cp.WorldPositive();
    AtRankIsRank(cp, 0);
    var world, vbs := cp.World(), cp.VirtualBlockSize();
    var off := UnevenOffset(cp.blockSize, cp.interleave, world);
    DivUnique(off, vbs, 0, off);
    DivUnique(vbs, vbs, 1, 0);
    Digits(0, 0, 0, cp.interleave, world);
    p, q := off, vbs;
    assert (n + 1) * cp.blockSize == n * cp.blockSize + cp.blockSize;
  }

  /** No two positions of a request share a slot on any rank if and only if virtual blocks split evenly. */
  lemma CollisionExactly(cp: Cp)
    requires cp.Valid()
    ensures cp.Even() <==> forall r: nat, row, p: nat, q: nat :: r < cp.World() ==> !Collides(cp, r, row, p, q)
  {
    if cp.Even() {
      forall r: nat, row, p: nat, q: nat | r < cp.World()
        ensures !Collides(cp, r, row, p, q)
      {
        AtRankIsRank(cp, r);
        if Collides(cp, r, row, p, q) {
          SameSlot(AtRank(cp, r), row, p, row, q);
        }
      }
    } else {
      cp.WorldPositive();
      var p, q := UnevenCollides(cp, 0);
    }
  }

  // ---- Balance ----

  /** Ownership does not depend on where virtual blocks begin: it is one round robin over all positions. */
  lemma GlobalRoundRobin(cp: Cp, pos: nat)
    requires cp.Even()
    ensures 0 < cp.World() && Owner(cp, pos) == RankOf(pos, cp.interleave, cp.World())
  {
    cp.WorldPositive();
    var world, cycle := cp.World(), cp.World() * cp.interleave;
    if world != 1 {
      var blk, off := BlockIndex(cp, pos), BlockOffset(cp, pos);
      var c, r, x := ToDigits(off, cp.interleave, world);
      var groups := cp.blockSize / cp.interleave;
      assert cp.blockSize == groups * cp.interleave;
      assert cp.VirtualBlockSize() == groups * cycle;
      assert pos == (blk * groups + c) * cycle + r * cp.interleave + x by {
        assert blk * (groups * cycle) == blk * groups * cycle;
      }
      Digits(blk * groups + c, r, x, cp.interleave, world);
    }
  }

  /** How many of the first `n` positions rank `r` stores. */
  ghost function Owned(cp: Cp, n: nat, r: nat): nat
    requires cp.Valid()
  {
    if n == 0 then 0 else Owned(cp, n - 1, r) + (if Owner(cp, n - 1) == r then 1 else 0)
  }

  ghost function TotalOwned(cp: Cp, n: nat, ranks: nat): nat
    requires cp.Valid()
  {
    if ranks == 0 then 0 else TotalOwned(cp, n, ranks - 1) + Owned(cp, n, ranks - 1)
  }

  lemma {:induction false} TotalOwnedGrows(cp: Cp, n: nat, ranks: nat)
    requires cp.Valid()
    ensures TotalOwned(cp, n + 1, ranks) == TotalOwned(cp, n, ranks) + (if Owner(cp, n) < ranks then 1 else 0)
    decreases ranks
  {
    if ranks > 0 {
      TotalOwnedGrows(cp, n, ranks - 1);
    }
  }

  lemma {:induction false} NothingOwned(cp: Cp, ranks: nat)
    requires cp.Valid()
    ensures TotalOwned(cp, 0, ranks) == 0
    decreases ranks
  {
    if ranks > 0 {
      NothingOwned(cp, ranks - 1);
    }
  }

  /** Conservation: the ranks' shares of any prefix add up to the prefix. */
  lemma {:induction false} SharesSumToPrefix(cp: Cp, n: nat)
    requires cp.Valid()
    ensures TotalOwned(cp, n, cp.World()) == n
    decreases n
  {
    if n == 0 {
      NothingOwned(cp, cp.World());
    } else {
      SharesSumToPrefix(cp, n - 1);
      TotalOwnedGrows(cp, n - 1, cp.World());
      OwnerInWorld(cp, n - 1);
    }
  }

  function Clamp(v: int, hi: nat): nat {
    if v < 0 then 0 else if v > hi then hi else v
  }

  /** Full rounds give every rank one group; the unfinished round fills the ranks in order. */
  function Share(n: nat, r: nat, interleave: nat, world: nat): nat
    requires 0 < interleave && 0 < world
  {
    MulPositive(world, interleave);
    (n / (world * interleave)) * interleave + Clamp(n % (world * interleave) - r * interleave, interleave)
  }

  lemma ClampStep(low: nat, r0: nat, x: nat, r: nat, interleave: nat)
    requires low == r0 * interleave + x && x < interleave
    ensures Clamp(low + 1 - r * interleave, interleave)
      == Clamp(low - r * interleave, interleave) + (if r == r0 then 1 else 0)
  {
    if r < r0 {
      MulLe(r + 1, r0, interleave);
    } else if r0 < r {
      MulLe(r0 + 1, r, interleave);
    }
  }

  /** Counting up to a whole round or starting the next one is the same share. */
  lemma NextDigits(c: nat, low: nat, r: nat, interleave: nat, world: nat)
    requires 0 < interleave && r < world && low <= world * interleave
    ensures Share(c * (world * interleave) + low, r, interleave, world)
      == c * interleave + Clamp(low - r * interleave, interleave)
  {
    var cycle := world * interleave;
    var n := c * cycle + low;
    if low < cycle {
      DivUnique(n, cycle, c, low);
    } else {
      MulPositive(world, interleave);
      DivUnique(n, cycle, c + 1, 0);
      MulLe(r + 1, world, interleave);
      assert Clamp(low - r * interleave, interleave) == interleave;
      assert (c + 1) * interleave == c * interleave + interleave;
    }
  }

  lemma ShareStep(n: nat, r: nat, interleave: nat, world: nat)
    requires 0 < interleave && r < world
    ensures Share(n + 1, r, interleave, world)
      == Share(n, r, interleave, world) + (if RankOf(n, interleave, world) == r then 1 else 0)
  {
    var c, r0, x := ToDigits(n, interleave, world);
    Digits(c, r0, x, interleave, world);
    var cycle, low := world * interleave, r0 * interleave + x;
    LowDigits(r0, x, interleave, world);
    ClampStep(low, r0, x, r, interleave);
    NextDigits(c, low + 1, r, interleave, world);
  }

  lemma {:induction false} OwnedIsShare(cp: Cp, n: nat, r: nat)
    requires cp.Even() && r < cp.World()
    ensures Owned(cp, n, r) == Share(n, r, cp.interleave, cp.World())
    decreases n
  {
    if n == 0 {
      MulPositive(cp.World(), cp.interleave);
      DivUnique(0, cp.World() * cp.interleave, 0, 0);
    } else {
      OwnedIsShare(cp, n - 1, r);
      GlobalRoundRobin(cp, n - 1);
      ShareStep(n - 1, r, cp.interleave, cp.World());
    }
  }

  /** The shares of any two ranks differ by at most one interleave group, for every prefix length. */
  lemma SharesAreBalanced(cp: Cp, n: nat, r: nat, q: nat)
    requires cp.Even() && r < cp.World() && q < cp.World()
    ensures Owned(cp, n, r) <= Owned(cp, n, q) + cp.interleave
  {
    OwnedIsShare(cp, n, r);
    OwnedIsShare(cp, n, q);
  }
}
