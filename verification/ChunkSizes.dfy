/** Size and chunk arithmetic of the ROCm allocator path, in 64-bit unsigned integers (cumem_allocator.cpp). */
module ChunkSizes {
  import opened Wrappers
  import opened Arithmetic

  const U64 := 0x1_0000_0000_0000_0000
  const MB := 1024 * 1024
  const DEFAULT_MEMCREATE_CHUNK_SIZE := 256 * MB

  /** The configured chunk size in bytes; `parsed` is None when the variable is unset or does not parse. */
  function MemCreateChunkSize(parsed: Option<nat>): (bytes: nat)
    ensures 0 < bytes < U64 && bytes % MB == 0
  {
    if parsed.None? || parsed.value == 0 || (U64 - 1) / MB < parsed.value then DEFAULT_MEMCREATE_CHUNK_SIZE
    else parsed.value * MB
  }

  /** The variable counts megabytes; without a positive value that fits into 64 bits the size is 256 megabytes. */
  lemma ConfiguredExactly(parsed: Option<nat>)
    ensures parsed.Some? && 0 < parsed.value && parsed.value * 1048576 < U64 ==>
      MemCreateChunkSize(parsed) == parsed.value * 1048576
    ensures parsed.None? || parsed.value == 0 || U64 <= parsed.value * 1048576 ==>
      MemCreateChunkSize(parsed) == 256 * 1048576
  {
  }

  /** `((x + g - 1) / g) * g` with the addition wrapping at 64 bits. */
  function RoundUp(x: nat, g: nat): nat
    requires 0 < g
  {
    var q: nat := ((x + g - 1) % U64) / g;
    q * g
  }

  /** Rounding up is correct exactly when the addition does not wrap; when it wraps the result is zero. */
  lemma RoundUpExactly(x: nat, g: nat)
    requires x < U64 && 0 < g < U64
    ensures x + g - 1 < U64 ==> RoundUp(x, g) % g == 0 && x <= RoundUp(x, g) < x + g && RoundUp(x, g) < U64
    ensures U64 <= x + g - 1 ==> RoundUp(x, g) == 0 < x
    ensures x <= RoundUp(x, g) <==> x + g - 1 < U64
  {
    var n := (x + g - 1) % U64;
    var q := n / g;
    assert n == q * g + n % g;
    DivUnique(q * g, g, q, 0);
    if U64 <= x + g - 1 {
      assert n == x + g - 1 - U64 < g;
      DivUnique(n, g, 0, n);
    } else {
      assert n == x + g - 1;
    }
  }

  function NumChunks(size: nat, chunk: nat): nat
    requires 0 < chunk
  {
    ((size + chunk - 1) % U64) / chunk
  }

  function Min(a: nat, b: nat): nat {
    if a < b then a else b
  }

  /** Every index below the chunk count starts inside the allocation, so the subtraction cannot wrap. */
  lemma ChunkStartsInside(size: nat, chunk: nat, i: nat)
    requires size < U64 && 0 < chunk < U64 && i < NumChunks(size, chunk)
    ensures i * chunk < size
  {
    var n := (size + chunk - 1) % U64;
    assert n <= size + chunk - 1;
    MulLe(i + 1, n / chunk, chunk);
    assert n / chunk * chunk <= n;
    assert (i + 1) * chunk == i * chunk + chunk;
  }

  function ChunkAt(size: nat, chunk: nat, i: nat): nat
    requires size < U64 && 0 < chunk < U64 && i < NumChunks(size, chunk)
  {
    ChunkStartsInside(size, chunk, i);
    Min(size - i * chunk, chunk)
  }

  function Chunks(size: nat, chunk: nat): seq<nat>
    requires size < U64 && 0 < chunk < U64
  {
    seq(NumChunks(size, chunk), i requires 0 <= i < NumChunks(size, chunk) => ChunkAt(size, chunk, i))
  }

  ghost function Sum(s: seq<nat>): nat {
    if s == [] then 0 else Sum(s[..|s| - 1]) + s[|s| - 1]
  }

  lemma SumPrefix(s: seq<nat>, k: nat)
    requires k < |s|
    ensures Sum(s[..k + 1]) == Sum(s[..k]) + s[k]
  {
    assert s[..k + 1][..k] == s[..k];
  }

  /** One more chunk: the running total moves from one multiple of the chunk size to the next, or to the size. */
  lemma ChunkStep(size: nat, chunk: nat, i: nat)
    requires size < U64 && 0 < chunk < U64 && i < NumChunks(size, chunk)
    ensures Min(i * chunk, size) + ChunkAt(size, chunk, i) == Min((i + 1) * chunk, size)
  {
    ChunkStartsInside(size, chunk, i);
    MulSucc(i, chunk);
  }

  lemma {:induction false} ChunkPrefix(size: nat, chunk: nat, k: nat)
    requires size < U64 && 0 < chunk < U64 && k <= NumChunks(size, chunk)
    ensures Sum(Chunks(size, chunk)[..k]) == Min(k * chunk, size)
    decreases k
  {
    if k > 0 {
      ChunkPrefix(size, chunk, k - 1);
      SumPrefix(Chunks(size, chunk), k - 1);
      ChunkStep(size, chunk, k - 1);
    }
  }

  lemma CountCovers(size: nat, chunk: nat)
    requires size < U64 && 0 < chunk < U64
    ensures size + chunk - 1 < U64 ==> size <= NumChunks(size, chunk) * chunk
    ensures U64 <= size + chunk - 1 ==> NumChunks(size, chunk) == 0
  {
    var n := (size + chunk - 1) % U64;
    if U64 <= size + chunk - 1 {
      assert n == size + chunk - 1 - U64;
      DivUnique(n, chunk, 0, n);
    } else {
      assert n == size + chunk - 1;
      assert n == n / chunk * chunk + n % chunk;
    }
  }

  /** The chunks add up to the size exactly when the chunk count does not wrap; when it wraps there are none. */
  lemma ChunksSumExactly(size: nat, chunk: nat)
    requires size < U64 && 0 < chunk < U64
    ensures Sum(Chunks(size, chunk)) == size <==> size + chunk - 1 < U64
    ensures U64 <= size + chunk - 1 ==> Chunks(size, chunk) == []
  {
    var count := NumChunks(size, chunk);
    CountCovers(size, chunk);
    ChunkPrefix(size, chunk, count);
    assert Chunks(size, chunk)[..count] == Chunks(size, chunk);
  }

  lemma MultipleDiff(a: nat, b: nat, g: nat)
    requires 0 < g && a % g == 0 && b % g == 0 && b <= a
    ensures (a - b) % g == 0
  {
    assert a == a / g * g && b == b / g * g;
    DivUnique(a - b, g, a / g - b / g, 0);
  }

  lemma MultipleMul(k: nat, b: nat, g: nat)
    requires 0 < g && b % g == 0
    ensures k * b % g == 0
  {
    assert b == b / g * g;
    assert k * b == (k * (b / g)) * g;
    DivUnique(k * b, g, k * (b / g), 0);
  }

  /** Every chunk is a positive multiple of the granularity, and none exceeds the chunk size. */
  lemma ChunkShape(size: nat, chunk: nat, g: nat, i: nat)
    requires size < U64 && 0 < chunk < U64 && 0 < g
    requires size % g == 0 && chunk % g == 0 && i < NumChunks(size, chunk)
    ensures 0 < ChunkAt(size, chunk, i) <= chunk && ChunkAt(size, chunk, i) % g == 0
  {
    ChunkStartsInside(size, chunk, i);
    MultipleMul(i, chunk, g);
    MultipleDiff(size, i * chunk, g);
  }

  /** All chunks but the last have the chunk size. */
  lemma FullChunks(size: nat, chunk: nat, i: nat)
    requires size < U64 && 0 < chunk < U64 && i + 1 < |Chunks(size, chunk)|
    ensures Chunks(size, chunk)[i] == chunk
  {
    ChunkStartsInside(size, chunk, i + 1);
    MulSucc(i, chunk);
  }

  /** The loop of `my_malloc` that fills `chunk_sizes`. */
  method FillChunkSizes(size: nat, chunk: nat) returns (sizes: array<nat>)
    requires size < U64 && 0 < chunk < U64
    ensures fresh(sizes) && sizes[..] == Chunks(size, chunk)
  {
    sizes := new nat[NumChunks(size, chunk)];
    for i := 0 to sizes.Length
      invariant sizes[..i] == Chunks(size, chunk)[..i]
    {
      ChunkStartsInside(size, chunk, i);
      sizes[i] := if size - i * chunk < chunk then size - i * chunk else chunk;
      assert sizes[i] == Chunks(size, chunk)[i];
    }
    assert sizes[..] == sizes[..sizes.Length];
  }

  /**
   * The overflow guard of the environment variable is not enough: the largest value it lets through rounds up to a
   * chunk size of zero, by which the chunk count is then divided, as soon as the granularity exceeds one megabyte.
   */
  lemma LargestEnvRoundsToZero(g: nat)
    requires MB < g < U64
    ensures var base := MemCreateChunkSize(Some(0xFFF_FFFF_FFFF));
      base == 0xFFF_FFFF_FFFF * MB && RoundUp(base, g) == 0
  {
    RoundUpExactly(0xFFF_FFFF_FFFF * MB, g);
  }

  /** Some setting of the variable leads to a chunk size of zero if and only if the granularity exceeds one megabyte. */
  lemma ZeroChunkExactly(g: nat)
    requires 0 < g < U64
    ensures (exists env :: RoundUp(MemCreateChunkSize(env), g) == 0) <==> MB < g
  {
    if MB < g {
      LargestEnvRoundsToZero(g);
    } else {
      forall env
        ensures RoundUp(MemCreateChunkSize(env), g) != 0
      {
        var bytes := MemCreateChunkSize(env);
        assert bytes <= U64 - MB;
        RoundUpExactly(bytes, g);
      }
    }
  }
}
