/** Address-to-symbol resolution (`SymResolver` of trace_gen.py). */
module Symbols {

  datatype Sym = Sym(name: string, start: int, end: int) {
    predicate Covers(addr: int) {
      start <= addr < end
    }
  }

  const NOSYM := "nosym"

  function FnStarts(syms: seq<Sym>): (starts: seq<int>)
    ensures |starts| == |syms|
    ensures forall k :: 0 <= k < |syms| ==> starts[k] == syms[k].start
  {
    seq(|syms|, k requires 0 <= k < |syms| => syms[k].start)
  }

  ghost predicate Sorted(a: seq<int>) {
    forall i, j :: 0 <= i < j < |a| ==> a[i] <= a[j]
  }

  /** What `from_file` establishes by sorting the symbol list on its start addresses. */
  ghost predicate SortedSyms(syms: seq<Sym>) {
    forall i, j :: 0 <= i < j < |syms| ==> syms[i].start <= syms[j].start
  }

  /** `from_file` keeps only symbols whose size is positive. */
  ghost predicate NonEmpty(syms: seq<Sym>) {
    forall i :: 0 <= i < |syms| ==> syms[i].start < syms[i].end
  }

  ghost predicate PairwiseDisjoint(syms: seq<Sym>) {
    forall i, j :: 0 <= i < j < |syms| ==> syms[i].end <= syms[j].start || syms[j].end <= syms[i].start
  }

  /** `bisect.bisect_right` restricted to `a[lo..hi]`: the bisection of the Python standard library. */
  function BisectRight(a: seq<int>, x: int, lo: nat, hi: nat): (k: nat)
    requires lo <= hi <= |a|
    ensures lo <= k <= hi
    ensures Sorted(a) ==> (forall i :: lo <= i < k ==> a[i] <= x) && (forall i :: k <= i < hi ==> x < a[i])
    decreases hi - lo
  {
    if lo == hi then lo
    else
      var mid := (lo + hi) / 2;
      if x < a[mid] then BisectRight(a, x, lo, mid) else BisectRight(a, x, mid + 1, hi)
  }

  function LookupSym(syms: seq<Sym>, addr: int): string {
    var idx := BisectRight(FnStarts(syms), addr, 0, |syms|) - 1;
    if 0 <= idx && syms[idx].Covers(addr) then syms[idx].name else NOSYM
  }

  /** The reference: walk back from the end to the last symbol that starts at or before `addr`. */
  function ScanBack(syms: seq<Sym>, addr: int): string {
    if |syms| == 0 then NOSYM
    else
      var last := syms[|syms| - 1];
      if last.start <= addr then (if last.Covers(addr) then last.name else NOSYM)
      else ScanBack(syms[..|syms| - 1], addr)
  }

  lemma {:induction false} ScanBackStopsAt(syms: seq<Sym>, addr: int, k: nat)
    requires k <= |syms|
    requires forall i :: k <= i < |syms| ==> addr < syms[i].start
    ensures ScanBack(syms, addr) == ScanBack(syms[..k], addr)
    decreases |syms|
  {
    if k == |syms| {
      assert syms[..k] == syms;
    } else {
      ScanBackStopsAt(syms[..|syms| - 1], addr, k);
      assert syms[..|syms| - 1][..k] == syms[..k];
    }
  }

  /** The bisecting lookup and the linear scan return the same name on every sorted table. */
  lemma {:induction false} LookupIsScan(syms: seq<Sym>, addr: int)
    requires SortedSyms(syms)
    ensures LookupSym(syms, addr) == ScanBack(syms, addr)
  {
    var starts := FnStarts(syms);
    assert Sorted(starts);
    var k := BisectRight(starts, addr, 0, |syms|);
    forall i | k <= i < |syms|
      ensures addr < syms[i].start
    {
      assert addr < starts[i];
    }
    ScanBackStopsAt(syms, addr, k);
    if 0 < k {
      assert starts[k - 1] <= addr;
      assert syms[..k][|syms[..k]| - 1] == syms[k - 1];
    }
  }

  /** A covering symbol is found whenever no later entry of the table also starts at or before the address. */
  lemma {:induction false} LookupFinds(syms: seq<Sym>, addr: int, k: nat)
    requires SortedSyms(syms) && k < |syms| && syms[k].Covers(addr)
    requires forall i :: k < i < |syms| ==> addr < syms[i].start
    ensures LookupSym(syms, addr) == syms[k].name
  {
    ScanBackStopsAt(syms, addr, k + 1);
    assert syms[..k + 1][|syms[..k + 1]| - 1] == syms[k];
    LookupIsScan(syms, addr);
  }

  lemma {:induction false} ScanBackMisses(syms: seq<Sym>, addr: int)
    requires forall i :: 0 <= i < |syms| ==> !syms[i].Covers(addr)
    ensures ScanBack(syms, addr) == NOSYM
  {
    if |syms| > 0 {
      ScanBackMisses(syms[..|syms| - 1], addr);
    }
  }

  /** For non-empty, pairwise disjoint symbols the lookup returns the covering symbol, or `nosym` when there is none. */
  lemma {:induction false} LookupDisjoint(syms: seq<Sym>, addr: int)
    requires SortedSyms(syms) && NonEmpty(syms) && PairwiseDisjoint(syms)
    ensures forall k :: 0 <= k < |syms| && syms[k].start <= addr < syms[k].end ==> LookupSym(syms, addr) == syms[k].name
    ensures (forall k :: 0 <= k < |syms| ==> addr < syms[k].start || syms[k].end <= addr) ==>
      LookupSym(syms, addr) == NOSYM
  {
    forall k | 0 <= k < |syms| && syms[k].start <= addr < syms[k].end
      ensures LookupSym(syms, addr) == syms[k].name
    {
      LookupFinds(syms, addr, k);
    }
    if forall k :: 0 <= k < |syms| ==> !syms[k].Covers(addr) {
      ScanBackMisses(syms, addr);
      LookupIsScan(syms, addr);
    }
  }
}
