/** Streaming-latency accounting (backend_request_func.py) and the goodput computed from it. */
module Benchmarks {
  import opened Wrappers

  ghost function Sum(s: seq<real>): real {
    if s == [] then 0.0 else Sum(s[..|s| - 1]) + s[|s| - 1]
  }

  lemma SumAppend(s: seq<real>, x: real)
    ensures Sum(s + [x]) == Sum(s) + x
  {
    assert (s + [x])[..|s|] == s;
  }

  lemma {:induction false} SumNonNegative(s: seq<real>)
    requires forall i :: 0 <= i < |s| ==> 0.0 <= s[i]
    ensures 0.0 <= Sum(s)
  {
    if s != [] {
      SumNonNegative(s[..|s| - 1]);
    }
  }

  /** A piece of the response: skipped, a token with the time it was read, or a usage record with its time. */
  datatype Chunk = Skipped | Token(at: real) | Usage(at: real)

  datatype Timing = Timing(ttft: real, itl: seq<real>, latency: real)

  predicate NonNegative(t: Timing) {
    0.0 <= t.ttft && forall i :: 0 <= i < |t.itl| ==> 0.0 <= t.itl[i]
  }

  /** The parts of the latency do not exceed it: what both loops ensure on a monotone clock. */
  ghost predicate Accounted(t: Timing) {
    NonNegative(t) && t.latency >= t.ttft + Sum(t.itl)
  }

  // ---- What the parts are ----

  /** The chunks that are not skipped, in order. */
  ghost function Arrived(chunks: seq<Chunk>): (arrived: seq<Chunk>)
    ensures AllTimed(arrived)
  {
    if chunks == [] then []
    else
      var last := chunks[|chunks| - 1];
      Arrived(chunks[..|chunks| - 1]) + if last.Skipped? then [] else [last]
  }

  ghost predicate AllTimed(arrived: seq<Chunk>) {
    forall k :: 0 <= k < |arrived| ==> !arrived[k].Skipped?
  }

  lemma ArrivedStep(chunks: seq<Chunk>, i: nat)
    requires i < |chunks|
    ensures Arrived(chunks[..i + 1])
      == if chunks[i].Skipped? then Arrived(chunks[..i]) else Arrived(chunks[..i]) + [chunks[i]]
  {
    assert chunks[..i + 1][..i] == chunks[..i];
    assert Arrived(chunks[..i]) + [] == Arrived(chunks[..i]);
  }

  /** A token whose time differs from the start: the code tells the first token by its non-zero time. */
  predicate Counts(c: Chunk, start: real) {
    c.Token? && c.at != start
  }

  ghost predicate IsFirst(arrived: seq<Chunk>, start: real, f: nat) {
    f < |arrived| && Counts(arrived[f], start) && forall k :: 0 <= k < f ==> !Counts(arrived[k], start)
  }

  /** The time between each token behind `f` and the chunk that arrived before it, among the first `n` chunks. */
  ghost function Gaps(arrived: seq<Chunk>, f: nat, n: nat): seq<real>
    requires AllTimed(arrived) && n <= |arrived|
  {
    if n <= f + 1 then []
    else Gaps(arrived, f, n - 1) + if arrived[n - 1].Token? then [arrived[n - 1].at - arrived[n - 2].at] else []
  }

  /** The time between each usage record behind `f` and the chunk that arrived before it, in all. */
  ghost function UsageTime(arrived: seq<Chunk>, f: nat, n: nat): real
    requires AllTimed(arrived) && n <= |arrived|
  {
    if n <= f + 1 then 0.0
    else UsageTime(arrived, f, n - 1) + if arrived[n - 1].Usage? then arrived[n - 1].at - arrived[n - 2].at else 0.0
  }

  ghost function TokensBehind(arrived: seq<Chunk>, f: nat, n: nat): nat
    requires n <= |arrived|
    decreases n
  {
    if n <= f + 1 then 0 else TokensBehind(arrived, f, n - 1) + if arrived[n - 1].Token? then 1 else 0
  }

  lemma {:induction false} GapCount(arrived: seq<Chunk>, f: nat, n: nat)
    requires AllTimed(arrived) && n <= |arrived|
    ensures |Gaps(arrived, f, n)| == TokensBehind(arrived, f, n)
    decreases n
  {
    if n > f + 1 {
      GapCount(arrived, f, n - 1);
    }
  }

  /** There is one gap for each token behind the first, and the k-th of them has the k-th gap. */
  lemma {:induction false} GapOfToken(arrived: seq<Chunk>, f: nat, j: nat, n: nat)
    requires AllTimed(arrived) && f < j < n <= |arrived| && arrived[j].Token?
    ensures |Gaps(arrived, f, n)| == TokensBehind(arrived, f, n) > TokensBehind(arrived, f, j)
    ensures Gaps(arrived, f, n)[TokensBehind(arrived, f, j)] == arrived[j].at - arrived[j - 1].at
    decreases n
  {
    GapCount(arrived, f, n);
    GapCount(arrived, f, n - 1);
    if j < n - 1 {
      GapOfToken(arrived, f, j, n - 1);
    }
  }

  lemma {:induction false} GapsOfPrefix(arrived: seq<Chunk>, longer: seq<Chunk>, f: nat, n: nat)
    requires AllTimed(longer) && arrived <= longer && n <= |arrived|
    ensures AllTimed(arrived) && Gaps(arrived, f, n) == Gaps(longer, f, n)
    decreases n
  {
    if n > f + 1 {
      GapsOfPrefix(arrived, longer, f, n - 1);
    }
  }

  /** From the first token on, gaps and usage time together make up the time that passes. */
  lemma {:induction false} GapsTelescope(arrived: seq<Chunk>, f: nat, n: nat)
    requires AllTimed(arrived) && f < n <= |arrived|
    ensures Sum(Gaps(arrived, f, n)) + UsageTime(arrived, f, n) == arrived[n - 1].at - arrived[f].at
    decreases n
  {
    if n > f + 1 {
      GapsTelescope(arrived, f, n - 1);
      if arrived[n - 1].Token? {
        SumAppend(Gaps(arrived, f, n - 1), arrived[n - 1].at - arrived[n - 2].at);
      } else {
        assert Gaps(arrived, f, n) == Gaps(arrived, f, n - 1);
      }
    }
  }

  lemma {:induction false} NoUsageNoTime(arrived: seq<Chunk>, f: nat, n: nat)
    requires AllTimed(arrived) && n <= |arrived| && forall k :: 0 <= k < |arrived| ==> arrived[k].Token?
    ensures UsageTime(arrived, f, n) == 0.0
    decreases n
  {
    if n > f + 1 {
      NoUsageNoTime(arrived, f, n - 1);
    }
  }

  /** The times that the chunks carry do not run backwards, beginning with the start. */
  ghost predicate Monotone(arrived: seq<Chunk>, start: real)
    requires AllTimed(arrived)
  {
    && (forall k :: 0 <= k < |arrived| ==> start <= arrived[k].at)
    && (forall j, k :: 0 <= j <= k < |arrived| ==> arrived[j].at <= arrived[k].at)
  }

  lemma {:induction false} GapsAreNonNegative(arrived: seq<Chunk>, start: real, f: nat, n: nat)
    requires AllTimed(arrived) && n <= |arrived| && Monotone(arrived, start)
    ensures forall i :: 0 <= i < |Gaps(arrived, f, n)| ==> 0.0 <= Gaps(arrived, f, n)[i]
    ensures 0.0 <= UsageTime(arrived, f, n)
    decreases n
  {
    if n > f + 1 {
      GapsAreNonNegative(arrived, start, f, n - 1);
      assert arrived[n - 2].at <= arrived[n - 1].at;
    }
  }

  ghost predicate NoneCounts(arrived: seq<Chunk>, start: real) {
    forall k :: 0 <= k < |arrived| ==> !Counts(arrived[k], start)
  }

  /** `first` is the place of the first token, if there is one. */
  ghost predicate First(arrived: seq<Chunk>, start: real, first: Option<nat>) {
    match first
    case None => NoneCounts(arrived, start)
    case Some(f) => IsFirst(arrived, start, f)
  }

  ghost function Ttft(arrived: seq<Chunk>, start: real, first: Option<nat>): real
    requires First(arrived, start, first)
  {
    if first.None? then 0.0 else arrived[first.value].at - start
  }

  ghost function Itl(arrived: seq<Chunk>, first: Option<nat>): seq<real>
    requires AllTimed(arrived)
  {
    if first.None? then [] else Gaps(arrived, first.value, |arrived|)
  }

  /** The first-token time and the inter-token times are those of the chunks that arrived. */
  ghost predicate Measures(arrived: seq<Chunk>, start: real, ttft: real, itl: seq<real>)
    requires AllTimed(arrived)
  {
    forall first :: First(arrived, start, first) ==> ttft == Ttft(arrived, start, first) && itl == Itl(arrived, first)
  }

  /** There is exactly one answer to which token is the first. */
  lemma FirstIsUnique(arrived: seq<Chunk>, start: real, first: Option<nat>, other: Option<nat>)
    requires First(arrived, start, first) && First(arrived, start, other)
    ensures first == other
  {
  }

  lemma {:induction false} FirstExists(arrived: seq<Chunk>, start: real) returns (first: Option<nat>)
    ensures First(arrived, start, first)
  {
    if arrived == [] {
      first := None;
    } else {
      var init := arrived[..|arrived| - 1];
      first := FirstExists(init, start);
      if first.None? {
        first := if Counts(arrived[|init|], start) then Some(|init|) else None;
      }
    }
  }

  ghost function LastTime(arrived: seq<Chunk>, start: real): real
    requires AllTimed(arrived)
  {
    if arrived == [] then start else arrived[|arrived| - 1].at
  }

  /** Which token is the first after one more chunk. */
  function FirstAfter(first: Option<nat>, n: nat, c: Chunk, start: real): Option<nat> {
    if first.None? && Counts(c, start) then Some(n) else first
  }

  lemma FirstMore(arrived: seq<Chunk>, start: real, first: Option<nat>, c: Chunk)
    requires First(arrived, start, first)
    ensures First(arrived + [c], start, FirstAfter(first, |arrived|, c, start))
  {
  }

  /** Reading one more chunk: a token is the first one, or adds a gap, as there has been a first one or not. */
  lemma PartsMore(arrived: seq<Chunk>, start: real, first: Option<nat>, c: Chunk)
    requires AllTimed(arrived) && !c.Skipped? && First(arrived, start, first)
    ensures var longer, next := arrived + [c], FirstAfter(first, |arrived|, c, start);
      && First(longer, start, next) && LastTime(longer, start) == c.at
      && Ttft(longer, start, next) == (if first.None? && c.Token? then c.at - start else Ttft(arrived, start, first))
      && Itl(longer, next) == Itl(arrived, first)
                              + if first.Some? && c.Token? then [c.at - LastTime(arrived, start)] else []
  {
    var longer := arrived + [c];
    FirstMore(arrived, start, first, c);
    if first.Some? {
      var f := first.value;
      GapsOfPrefix(arrived, longer, f, |arrived|);
      assert longer[|arrived| - 1] == arrived[|arrived| - 1] && longer[f] == arrived[f];
      assert Gaps(longer, f, |longer|)
          == Gaps(longer, f, |arrived|) + if c.Token? then [c.at - longer[|arrived| - 1].at] else [];
    } else if Counts(c, start) {
      assert Gaps(longer, |arrived|, |longer|) == [];
    }
  }

  /** The variables of the loop after the chunks that have arrived. */
  ghost predicate Tracks(
    arrived: seq<Chunk>, start: real, first: Option<nat>, ttft: real, itl: seq<real>, recent: real)
    requires AllTimed(arrived)
  {
    && First(arrived, start, first) && ttft == Ttft(arrived, start, first)
    && itl == Itl(arrived, first) && recent == LastTime(arrived, start)
  }

  lemma TracksMore(
    arrived: seq<Chunk>, start: real, first: Option<nat>, ttft: real, itl: seq<real>, recent: real, c: Chunk)
    requires AllTimed(arrived) && !c.Skipped? && Tracks(arrived, start, first, ttft, itl, recent)
    ensures var next := FirstAfter(first, |arrived|, c, start);
      && (c.Token? && ttft == 0.0 ==> Tracks(arrived + [c], start, next, c.at - start, itl, c.at))
      && (c.Token? && ttft != 0.0 ==> Tracks(arrived + [c], start, next, ttft, itl + [c.at - recent], c.at))
      && (c.Usage? ==> Tracks(arrived + [c], start, next, ttft, itl, c.at))
  {
    PartsMore(arrived, start, first, c);
    assert itl + [] == itl;
  }

  /** The time that is in no part: before usage records behind the first token, or all of it when no token counts. */
  ghost function Unattributed(arrived: seq<Chunk>, start: real, first: Option<nat>): real
    requires AllTimed(arrived)
  {
    if first.None? then LastTime(arrived, start) - start else UsageTime(arrived, first.value, |arrived|)
  }

  /** The parts and what is in none of them make up the latency; on a monotone clock nothing is negative. */
  lemma PartsAccount(arrived: seq<Chunk>, start: real, first: Option<nat>)
    requires AllTimed(arrived) && First(arrived, start, first)
    ensures LastTime(arrived, start) - start
      == Ttft(arrived, start, first) + Sum(Itl(arrived, first)) + Unattributed(arrived, start, first)
    ensures Monotone(arrived, start) ==>
      && NonNegative(Timing(Ttft(arrived, start, first), Itl(arrived, first), 0.0))
      && 0.0 <= Unattributed(arrived, start, first)
  {
    if first.Some? {
      GapsTelescope(arrived, first.value, |arrived|);
      if Monotone(arrived, start) {
        GapsAreNonNegative(arrived, start, first.value, |arrived|);
      }
    }
  }

  lemma PartsWithoutUsage(arrived: seq<Chunk>, start: real, first: Option<nat>)
    requires AllTimed(arrived) && First(arrived, start, first) && forall k :: 0 <= k < |arrived| ==> arrived[k].Token?
    ensures Unattributed(arrived, start, first) == 0.0
  {
    if first.Some? {
      NoUsageNoTime(arrived, first.value, |arrived|);
    } else if arrived != [] {
      assert !Counts(arrived[|arrived| - 1], start);
    }
  }

  lemma PartsMeasure(arrived: seq<Chunk>, start: real, first: Option<nat>)
    requires AllTimed(arrived) && First(arrived, start, first)
    ensures Measures(arrived, start, Ttft(arrived, start, first), Itl(arrived, first))
  {
    forall other | First(arrived, start, other)
      ensures other == first
    {
      FirstIsUnique(arrived, start, first, other);
    }
  }

  /**
   * In full: with `f` the first token whose time differs from the start, the first-token time is its time less the
   * start, there is one inter-token time for each later token, and that of token `j` is its time less the time of the
   * chunk that arrived before it. Without such a token there are no parts.
   */
  lemma MeasuresInFull(arrived: seq<Chunk>, start: real, ttft: real, itl: seq<real>)
    requires AllTimed(arrived) && Measures(arrived, start, ttft, itl)
    ensures forall f: nat ::
      && f < |arrived| && arrived[f].Token? && arrived[f].at != start
      && (forall k :: 0 <= k < f && arrived[k].Token? ==> arrived[k].at == start)
      ==>
      && ttft == arrived[f].at - start && |itl| == TokensBehind(arrived, f, |arrived|)
      && (forall j :: f < j < |arrived| && arrived[j].Token? ==>
            && TokensBehind(arrived, f, j) < |itl|
            && itl[TokensBehind(arrived, f, j)] == arrived[j].at - arrived[j - 1].at)
    ensures (forall k :: 0 <= k < |arrived| && arrived[k].Token? ==> arrived[k].at == start) ==>
      ttft == 0.0 && itl == []
  {
    forall f: nat | IsFirst(arrived, start, f)
      ensures ttft == arrived[f].at - start && |itl| == TokensBehind(arrived, f, |arrived|)
      ensures forall j :: f < j < |arrived| && arrived[j].Token? ==>
        && TokensBehind(arrived, f, j) < |itl|
        && itl[TokensBehind(arrived, f, j)] == arrived[j].at - arrived[j - 1].at
    {
      assert First(arrived, start, Some(f));
      GapCount(arrived, f, |arrived|);
      forall j | f < j < |arrived| && arrived[j].Token?
        ensures TokensBehind(arrived, f, j) < |itl|
        ensures itl[TokensBehind(arrived, f, j)] == arrived[j].at - arrived[j - 1].at
      {
        GapOfToken(arrived, f, j, |arrived|);
      }
    }
    if forall k :: 0 <= k < |arrived| && arrived[k].Token? ==> arrived[k].at == start {
      assert First(arrived, start, None);
    }
  }

  /** When only tokens arrive, the k-th one behind the first has the k-th inter-token time. */
  lemma {:induction false} TokensBehindAll(arrived: seq<Chunk>, f: nat, n: nat)
    requires f < n <= |arrived| && forall k :: 0 <= k < |arrived| ==> arrived[k].Token?
    ensures TokensBehind(arrived, f, n) == n - f - 1
    decreases n
  {
    if n > f + 1 {
      TokensBehindAll(arrived, f, n - 1);
    }
  }

  lemma {:induction false} ArrivedAreChunks(chunks: seq<Chunk>)
    ensures forall k :: 0 <= k < |Arrived(chunks)| ==> Arrived(chunks)[k] in chunks
  {
    if chunks != [] {
      ArrivedAreChunks(chunks[..|chunks| - 1]);
    }
  }

  // ---- The two loops ----

  /**
   * The TensorRT-LLM loop: the parts are those of the tokens that arrived, and add up to the latency whatever the
   * clock does and however often the first token arrives at the very start time.
   */
  method TrtLlmTiming(start: real, chunks: seq<Chunk>) returns (t: Timing)
    requires forall i :: 0 <= i < |chunks| ==> !chunks[i].Usage?
    ensures Measures(Arrived(chunks), start, t.ttft, t.itl)
    ensures t.latency == LastTime(Arrived(chunks), start) - start == t.ttft + Sum(t.itl)
    ensures Monotone(Arrived(chunks), start) ==> Accounted(t)
  {
    var ttft, itl, recent := 0.0, [], start;
    ghost var first, arrived := None, [];
    for i := 0 to |chunks|
      invariant arrived == Arrived(chunks[..i]) && Tracks(arrived, start, first, ttft, itl, recent)
    {
      ArrivedStep(chunks, i);
      if chunks[i].Skipped? {
        continue;
      }
      TracksMore(arrived, start, first, ttft, itl, recent, chunks[i]);
      first, arrived := FirstAfter(first, |arrived|, chunks[i], start), arrived + [chunks[i]];
      var timestamp := chunks[i].at;
      if ttft == 0.0 {
        ttft := timestamp - start;
      } else {
        itl := itl + [timestamp - recent];
      }
      recent := timestamp;
    }
    assert chunks[..|chunks|] == chunks;
    ArrivedAreChunks(chunks);
    PartsAccount(arrived, start, first);
    PartsWithoutUsage(arrived, start, first);
    PartsMeasure(arrived, start, first);
    t := Timing(ttft, itl, recent - start);
  }

  /**
   * The chat loop: the same parts, and what they miss of the latency is exactly the time before the usage records
   * behind the first token, or all of it when no token counts as the first.
   */
  method ChatTiming(start: real, chunks: seq<Chunk>) returns (t: Timing, ghost first: Option<nat>)
    ensures First(Arrived(chunks), start, first)
    ensures Measures(Arrived(chunks), start, t.ttft, t.itl)
    ensures t.latency == LastTime(Arrived(chunks), start) - start
    ensures t.latency == t.ttft + Sum(t.itl) + Unattributed(Arrived(chunks), start, first)
    ensures Monotone(Arrived(chunks), start) ==> Accounted(t)
  {
    var ttft, itl, recent := 0.0, [], start;
    first := None;
    ghost var arrived := [];
    for i := 0 to |chunks|
      invariant arrived == Arrived(chunks[..i]) && Tracks(arrived, start, first, ttft, itl, recent)
    {
      ArrivedStep(chunks, i);
      if chunks[i].Skipped? {
        continue;
      }
      TracksMore(arrived, start, first, ttft, itl, recent, chunks[i]);
      first, arrived := FirstAfter(first, |arrived|, chunks[i], start), arrived + [chunks[i]];
      var timestamp := chunks[i].at;
      if chunks[i].Token? {
        if ttft == 0.0 {
          ttft := timestamp - start;
        } else {
          itl := itl + [timestamp - recent];
        }
      }
      recent := timestamp;
    }
    assert chunks[..|chunks|] == chunks;
    PartsAccount(arrived, start, first);
    PartsMeasure(arrived, start, first);
    t := Timing(ttft, itl, recent - start);
  }

  // ---- Goodput ----

  datatype Output = Output(success: bool, timing: Timing, outputLen: nat)

  const MILLISECONDS_TO_SECONDS := 1000.0

  function Tpot(o: Output): real {
    if o.outputLen > 1 then (o.timing.latency - o.timing.ttft) / (o.outputLen - 1) as real else 0.0
  }

  /** Scaled back by the number of tokens after the first, it is the time after the first token. */
  lemma TpotScales(o: Output)
    ensures o.outputLen > 1 ==> Tpot(o) * (o.outputLen - 1) as real == o.timing.latency - o.timing.ttft
    ensures o.outputLen <= 1 ==> Tpot(o) == 0.0
  {
  }

  lemma TpotIsNonNegative(o: Output)
    requires Accounted(o.timing)
    ensures 0.0 <= Tpot(o)
  {
    SumNonNegative(o.timing.itl);
  }

  predicate ValidName(n: string) {
    n in ["ttft", "tpot", "e2el"]
  }

  type Goals = map<string, real>

  /** `check_goodput_args`: every name known, every limit non-negative. */
  method CheckGoodputArgs(goals: Goals) returns (ok: bool)
    ensures ok <==> forall n :: n in goals ==> ValidName(n) && 0.0 <= goals[n]
  {
    var left := goals.Keys;
    while left != {}
      invariant left <= goals.Keys
      invariant forall n :: n in goals && n !in left ==> ValidName(n) && 0.0 <= goals[n]
      decreases |left|
    {
      var n :| n in left;
      if !ValidName(n) || goals[n] < 0.0 {
        return false;
      }
      left := left - {n};
    }
    return true;
  }

  predicate Within(goals: Goals, name: string, value: real) {
    name in goals ==> goals[name] / MILLISECONDS_TO_SECONDS >= value
  }

  /** A successful request that meets every configured limit. */
  predicate Good(goals: Goals, o: Output) {
    && o.success
    && Within(goals, "ttft", o.timing.ttft) && Within(goals, "tpot", Tpot(o)) && Within(goals, "e2el", o.timing.latency)
  }

  /** The limits are in milliseconds, the times in seconds. */
  lemma GoodInMilliseconds(goals: Goals, o: Output)
    ensures Good(goals, o) <==>
      && o.success
      && ("ttft" in goals ==> o.timing.ttft * 1000.0 <= goals["ttft"])
      && ("tpot" in goals ==> Tpot(o) * 1000.0 <= goals["tpot"])
      && ("e2el" in goals ==> o.timing.latency * 1000.0 <= goals["e2el"])
  {
  }

  function Successes(outputs: seq<Output>): seq<Output> {
    if outputs == [] then []
    else Successes(outputs[..|outputs| - 1]) + (if outputs[|outputs| - 1].success then [outputs[|outputs| - 1]] else [])
  }

  function CountGood(goals: Goals, outputs: seq<Output>): nat {
    if outputs == [] then 0
    else CountGood(goals, outputs[..|outputs| - 1]) + (if Good(goals, outputs[|outputs| - 1]) then 1 else 0)
  }

  lemma CountGoodAppend(goals: Goals, outputs: seq<Output>, o: Output)
    ensures CountGood(goals, outputs + [o]) == CountGood(goals, outputs) + (if Good(goals, o) then 1 else 0)
  {
    assert (outputs + [o])[..|outputs|] == outputs;
  }

  lemma {:induction false} FailuresDoNotCount(goals: Goals, outputs: seq<Output>)
    ensures CountGood(goals, Successes(outputs)) == CountGood(goals, outputs)
    ensures forall i :: 0 <= i < |Successes(outputs)| ==> Successes(outputs)[i].success
  {
    if outputs != [] {
      var init, last := outputs[..|outputs| - 1], outputs[|outputs| - 1];
      FailuresDoNotCount(goals, init);
      if last.success {
        assert Successes(outputs) == Successes(init) + [last];
        CountGoodAppend(goals, Successes(init), last);
      } else {
        assert Successes(outputs) == Successes(init);
      }
    }
  }

  /** One of the parallel `valid_metrics` lists with its entry of `slo_values`. */
  datatype Column = Column(values: seq<real>, limit: real)

  predicate RowMeets(columns: seq<Column>, k: nat)
    requires forall c :: c in columns ==> k < |c.values|
  {
    forall c :: c in columns ==> c.limit >= c.values[k]
  }

  function Configured(goals: Goals, name: string, values: seq<real>): seq<Column> {
    if name in goals then [Column(values, goals[name] / MILLISECONDS_TO_SECONDS)] else []
  }

  function AllConfigured(goals: Goals, ttfts: seq<real>, tpots: seq<real>, e2els: seq<real>): seq<Column> {
    Configured(goals, "ttft", ttfts) + Configured(goals, "tpot", tpots) + Configured(goals, "e2el", e2els)
  }

  lemma RowMeetsConfigured(goals: Goals, name: string, values: seq<real>, k: nat)
    requires k < |values|
    ensures RowMeets(Configured(goals, name, values), k) <==> Within(goals, name, values[k])
  {
    if name in goals {
      assert Column(values, goals[name] / MILLISECONDS_TO_SECONDS) in Configured(goals, name, values);
    }
  }

  lemma RowMeetsConcat(a: seq<Column>, b: seq<Column>, k: nat)
    requires forall c :: c in a + b ==> k < |c.values|
    ensures (forall c :: c in a ==> k < |c.values|) && (forall c :: c in b ==> k < |c.values|)
    ensures RowMeets(a + b, k) <==> RowMeets(a, k) && RowMeets(b, k)
  {
    assert forall c :: c in a ==> c in a + b;
    assert forall c :: c in b ==> c in a + b;
  }

  lemma RowMeetsIsGood(goals: Goals, ttfts: seq<real>, tpots: seq<real>, e2els: seq<real>, o: Output, k: nat)
    requires k < |ttfts| == |tpots| == |e2els| && o.success
    requires ttfts[k] == o.timing.ttft && tpots[k] == Tpot(o) && e2els[k] == o.timing.latency
    ensures RowMeets(AllConfigured(goals, ttfts, tpots, e2els), k) <==> Good(goals, o)
  {
    var a, b, c := Configured(goals, "ttft", ttfts), Configured(goals, "tpot", tpots), Configured(goals, "e2el", e2els);
    RowMeetsConcat(a + b, c, k);
    RowMeetsConcat(a, b, k);
    RowMeetsConfigured(goals, "ttft", ttfts, k);
    RowMeetsConfigured(goals, "tpot", tpots, k);
    RowMeetsConfigured(goals, "e2el", e2els, k);
  }

  /** The per-request lists that `calculate_metrics` fills, in step with the successful requests. */
  method CollectMetrics(outputs: seq<Output>)
    returns (ttfts: seq<real>, tpots: seq<real>, e2els: seq<real>, lens: seq<nat>, completed: nat)
    ensures completed == |Successes(outputs)| == |ttfts| == |tpots| == |e2els|
    ensures |lens| == |outputs|
    ensures forall i :: 0 <= i < |outputs| ==> lens[i] == if outputs[i].success then outputs[i].outputLen else 0
    ensures forall k :: 0 <= k < completed ==>
      var o := Successes(outputs)[k];
      ttfts[k] == o.timing.ttft && tpots[k] == Tpot(o) && e2els[k] == o.timing.latency
  {
    ttfts, tpots, e2els, lens, completed := [], [], [], [], 0;
    for i := 0 to |outputs|
      invariant completed == |Successes(outputs[..i])| == |ttfts| == |tpots| == |e2els|
      invariant |lens| == i
      invariant forall j :: 0 <= j < i ==> lens[j] == if outputs[j].success then outputs[j].outputLen else 0
      invariant forall k :: 0 <= k < completed ==>
        var o := Successes(outputs[..i])[k];
        ttfts[k] == o.timing.ttft && tpots[k] == Tpot(o) && e2els[k] == o.timing.latency
    {
      var o := outputs[i];
      assert outputs[..i + 1][..i] == outputs[..i];
      if o.success {
        lens := lens + [o.outputLen];
        var tpot := 0.0;
        if o.outputLen > 1 {
          tpot := (o.timing.latency - o.timing.ttft) / (o.outputLen - 1) as real;
        }
        tpots := tpots + [tpot];
        ttfts := ttfts + [o.timing.ttft];
        e2els := e2els + [o.timing.latency];
        completed := completed + 1;
      } else {
        lens := lens + [0];
      }
    }
    assert outputs[..|outputs|] == outputs;
  }

  /** The loop over `zip(*valid_metrics)`. */
  method CountRows(
    goals: Goals, columns: seq<Column>, ghost ttfts: seq<real>, ghost tpots: seq<real>, ghost e2els: seq<real>,
    ghost done: seq<Output>)
    returns (good: nat)
    requires columns != []
    requires columns == AllConfigured(goals, ttfts, tpots, e2els)
    requires |done| == |ttfts| == |tpots| == |e2els|
    requires forall k :: 0 <= k < |done| ==>
      && done[k].success && ttfts[k] == done[k].timing.ttft && tpots[k] == Tpot(done[k])
      && e2els[k] == done[k].timing.latency
    ensures good == CountGood(goals, done) && good <= |done|
  {
    good := 0;
    assert columns[0] in columns;
    for k := 0 to |columns[0].values|
      invariant good == CountGood(goals, done[..k]) && good <= k
    {
      assert done[..k + 1][..k] == done[..k];
      RowMeetsIsGood(goals, ttfts, tpots, e2els, done[k], k);
      if RowMeets(columns, k) {
        good := good + 1;
      }
    }
    assert done[..|done|] == done;
  }

  /** Counting rows over the configured columns counts the requests that meet every configured limit. */
  method Goodput(goals: Goals, outputs: seq<Output>) returns (good: nat, completed: nat)
    requires forall n :: n in goals ==> ValidName(n)
    ensures goals != map[] ==> good == CountGood(goals, outputs)
    ensures goals == map[] ==> good == 0
    ensures completed == |Successes(outputs)| && good <= completed
  {
    var ttfts, tpots, e2els, lens;
    ttfts, tpots, e2els, lens, completed := CollectMetrics(outputs);
    ghost var done := Successes(outputs);
    good := 0;
    if goals != map[] {
      var columns := [];
      if "ttft" in goals {
        columns := columns + [Column(ttfts, goals["ttft"] / MILLISECONDS_TO_SECONDS)];
      }
      if "tpot" in goals {
        columns := columns + [Column(tpots, goals["tpot"] / MILLISECONDS_TO_SECONDS)];
      }
      if "e2el" in goals {
        columns := columns + [Column(e2els, goals["e2el"] / MILLISECONDS_TO_SECONDS)];
      }
      assert columns == AllConfigured(goals, ttfts, tpots, e2els);
      FailuresDoNotCount(goals, outputs);
      assert columns != [] by {
        var n :| n in goals;
        assert ValidName(n);
      }
      good := CountRows(goals, columns, ttfts, tpots, e2els, done);
    }
  }
}
