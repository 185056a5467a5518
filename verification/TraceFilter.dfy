/** Dropping skipped functions from a trace (`filter_events`) prunes the call tree. */
module TraceFilter {
  import opened Wrappers
  import opened Instructions
  import opened TraceMachine
  import opened CallTree

  /** `s.split("/")` */
  function SplitSlash(s: string): (parts: seq<string>)
    ensures |parts| > 0
  {
    if s == "" then [""]
    else
      var rest := SplitSlash(s[1..]);
      if s[0] == '/' then [""] + rest else [[s[0]] + rest[0]] + rest[1..]
  }

  lemma {:induction false} SplitConcat(a: string, b: string)
    ensures SplitSlash(a + "/" + b) == SplitSlash(a) + SplitSlash(b)
  {
    var s := a + "/" + b;
    if a == "" {
      assert s[1..] == b;
    } else {
      assert s[1..] == a[1..] + "/" + b;
      SplitConcat(a[1..], b);
    }
  }

  lemma {:induction false} SplitSlashFree(a: string)
    requires '/' !in a
    ensures SplitSlash(a) == [a]
  {
    if a != "" {
      SplitSlashFree(a[1..]);
      assert [a[0]] + a[1..] == a;
    }
  }

  /** The slash-free pieces of all names, in order. */
  function Fragments(names: seq<string>): seq<string> {
    if names == [] then [] else SplitSlash(names[0]) + Fragments(names[1..])
  }

  /** Splitting a joined stack gives the pieces of its names; an empty stack gives one empty piece. */
  lemma {:induction false} SplitJoin(names: seq<string>)
    ensures SplitSlash(JoinSlash(names)) == if names == [] then [""] else Fragments(names)
  {
    if |names| == 1 {
      assert names[1..] == [];
      assert SplitSlash(names[0]) + [] == SplitSlash(names[0]);
    } else if |names| > 1 {
      SplitJoin(names[1..]);
      SplitConcat(names[0], JoinSlash(names[1..]));
    }
  }

  predicate Meets(names: seq<string>, skip: seq<string>) {
    exists n :: n in names && n in skip
  }

  predicate Keeps(e: Event, skip: seq<string>) {
    e.name !in skip && !Meets(SplitSlash(e.callStack), skip)
  }

  function Filter(events: seq<Event>, skip: seq<string>): seq<Event> {
    if events == [] then []
    else (if Keeps(events[0], skip) then [events[0]] else []) + Filter(events[1..], skip)
  }

  method FilterEvents(t: TraceGen) returns (kept: seq<Event>)
    ensures kept == Filter(t.events, t.skipFns)
  {
    kept := [];
    for n := 0 to |t.events|
      invariant kept + Filter(t.events[n..], t.skipFns) == Filter(t.events, t.skipFns)
    {
      var e := t.events[n];
      assert t.events[n..][1..] == t.events[n + 1..];
      if e.name in t.skipFns {
        continue;
      }
      var stack := SplitSlash(e.callStack);
      if exists f :: f in stack && f in t.skipFns {
        continue;
      }
      kept := kept + [e];
    }
  }

  // ---- Which activations are kept ----

  /** A flag for every event: whether the filter keeps it. */
  function Flags(events: seq<Event>, skip: seq<string>): (flags: seq<bool>)
    ensures |flags| == |events|
    ensures forall k :: 0 <= k < |events| ==> (flags[k] <==> Keeps(events[k], skip))
  {
    seq(|events|, k requires 0 <= k < |events| => Keeps(events[k], skip))
  }

  function Select(events: seq<Event>, flags: seq<bool>): seq<Event>
    requires |events| == |flags|
  {
    if events == [] then []
    else (if flags[0] then [events[0]] else []) + Select(events[1..], flags[1..])
  }

  lemma {:induction false} FilterIsSelect(events: seq<Event>, skip: seq<string>)
    ensures Filter(events, skip) == Select(events, Flags(events, skip))
  {
    if events != [] {
      FilterIsSelect(events[1..], skip);
      assert Flags(events, skip)[1..] == Flags(events[1..], skip);
    }
  }

  lemma {:induction false} SelectAppend(a: seq<Event>, f: seq<bool>, b: seq<Event>, g: seq<bool>)
    requires |a| == |f| && |b| == |g|
    ensures Select(a + b, f + g) == Select(a, f) + Select(b, g)
  {
    if a == [] {
      assert a + b == b && f + g == g;
    } else {
      assert (a + b)[0] == a[0] && (a + b)[1..] == a[1..] + b;
      assert (f + g)[0] == f[0] && (f + g)[1..] == f[1..] + g;
      SelectAppend(a[1..], f[1..], b, g);
      var head := if f[0] then [a[0]] else [];
      assert Select(a + b, f + g) == head + (Select(a[1..], f[1..]) + Select(b, g));
      assert Select(a, f) == head + Select(a[1..], f[1..]);
    }
  }

  lemma {:induction false} SelectAround(
    before: seq<Event>, f: seq<bool>, e: Event, flag: bool, after: seq<Event>, g: seq<bool>)
    requires |before| == |f| && |after| == |g|
    ensures Select(before + [e] + after, f + [flag] + g)
      == Select(before, f) + (if flag then [e] else []) + Select(after, g)
  {
    assert [e][1..] == [] && [flag][1..] == [];
    SelectAppend(before, f, [e], [flag]);
    SelectAppend(before + [e], f + [flag], after, g);
  }

  /** A call site in `fn` hides everything below it: one of the slash-free pieces of `fn` is skipped. */
  predicate Cuts(fn: string, skip: seq<string>) {
    Meets(SplitSlash(fn), skip)
  }

  /** Some call site on the stack hides what is below it. */
  predicate Above(stack: seq<Instr>, skip: seq<string>) {
    Meets(Fragments(StackNames(stack)), skip)
  }

  /** An empty stack string splits into one empty piece, so an empty name in the skip list hides the root too. */
  predicate Hidden(root: bool, above: bool, skip: seq<string>) {
    above || (root && "" in skip)
  }

  lemma {:induction false} FragmentsAppend(a: seq<string>, b: seq<string>)
    ensures Fragments(a + b) == Fragments(a) + Fragments(b)
  {
    if a == [] {
      assert a + b == b;
    } else {
      assert (a + b)[1..] == a[1..] + b;
      FragmentsAppend(a[1..], b);
    }
  }

  lemma AboveSite(stack: seq<Instr>, site: Instr, skip: seq<string>)
    ensures Above(stack + [site], skip) <==> Above(stack, skip) || Cuts(site.fn, skip)
  {
    assert StackNames(stack + [site]) == StackNames(stack) + [site.fn];
    FragmentsAppend(StackNames(stack), [site.fn]);
    assert Fragments([site.fn]) == SplitSlash(site.fn) + Fragments([]);
  }

  lemma StackHidden(stack: seq<Instr>, skip: seq<string>)
    ensures Meets(SplitSlash(JoinSlash(StackNames(stack))), skip) <==> Hidden(stack == [], Above(stack, skip), skip)
  {
    SplitJoin(StackNames(stack));
    assert "" in [""];
  }

  /** What the code keeps, activation by activation in completion order. */
  function Shown(a: Activation, root: bool, above: bool, skip: seq<string>): (flags: seq<bool>)
    ensures |flags| == Activations(a)
    decreases a
  {
    ShownBody(a.body, above || Cuts(a.fn, skip), skip) + [!Hidden(root, above, skip) && a.fn !in skip] +
    match a
    case Returns(_, _, _) => []
    case TailCalls(_, _, _, next) => Shown(next, root, above, skip)
  }

  function ShownBody(b: Body, above: bool, skip: seq<string>): (flags: seq<bool>)
    ensures |flags| == ActivationsBody(b)
    decreases b
  {
    match b
    case End => []
    case Straight(_, rest) => ShownBody(rest, above, skip)
    case CallSite(_, callee, rest) => Shown(callee, false, above, skip) + ShownBody(rest, above, skip)
  }

  /** Every call site lies in the function of its activation. */
  predicate Sited(a: Activation)
    decreases a
  {
    a.exit.fn == a.fn && SitedBody(a.fn, a.body) && (a.TailCalls? ==> Sited(a.next))
  }

  predicate SitedBody(fn: string, b: Body)
    decreases b
  {
    match b
    case End => true
    case Straight(_, rest) => SitedBody(fn, rest)
    case CallSite(site, callee, rest) => site.fn == fn && Sited(callee) && SitedBody(fn, rest)
  }

  lemma {:induction false} ShapedIsSited(cfg: Config, a: Activation)
    requires Shaped(cfg, a)
    ensures Sited(a)
    decreases a
  {
    ShapedBodyIsSited(cfg, a.fn, a.body);
    if a.TailCalls? {
      ShapedIsSited(cfg, a.next);
    }
  }

  lemma {:induction false} ShapedBodyIsSited(cfg: Config, fn: string, b: Body)
    requires ShapedBody(cfg, fn, b)
    ensures SitedBody(fn, b)
    decreases b
  {
    match b
    case End =>
    case Straight(_, rest) => ShapedBodyIsSited(cfg, fn, rest);
    case CallSite(_, callee, rest) =>
      ShapedIsSited(cfg, callee);
      ShapedBodyIsSited(cfg, fn, rest);
  }

  lemma FlagsAppend(a: seq<Event>, b: seq<Event>, skip: seq<string>)
    ensures Flags(a + b, skip) == Flags(a, skip) + Flags(b, skip)
  {
  }

  lemma FlagsAround(before: seq<Event>, e: Event, after: seq<Event>, skip: seq<string>)
    ensures Flags(before + [e] + after, skip) == Flags(before, skip) + [Keeps(e, skip)] + Flags(after, skip)
  {
  }

  /** The filter keeps the event of an activation exactly when `Shown` says so, whatever the names contain. */
  lemma {:induction false} FlagsAreShown(a: Activation, stack: seq<Instr>, skip: seq<string>)
    requires Sited(a)
    ensures Flags(Events(a, stack), skip) == Shown(a, stack == [], Above(stack, skip), skip)
    decreases a
  {
    BodyFlagsAreShown(a.fn, a.body, stack, skip);
    StackHidden(stack, skip);
    FlagsAround(BodyEvents(a.body, stack), ActivationEvent(a, stack),
                if a.TailCalls? then Events(a.next, stack) else [], skip);
    if a.TailCalls? {
      FlagsAreShown(a.next, stack, skip);
    }
  }

  lemma {:induction false} BodyFlagsAreShown(fn: string, b: Body, stack: seq<Instr>, skip: seq<string>)
    requires SitedBody(fn, b)
    ensures Flags(BodyEvents(b, stack), skip) == ShownBody(b, Above(stack, skip) || Cuts(fn, skip), skip)
    decreases b
  {
    match b
    case End =>
    case Straight(_, rest) => BodyFlagsAreShown(fn, rest, stack, skip);
    case CallSite(site, callee, rest) =>
      AboveSite(stack, site, skip);
      FlagsAreShown(callee, stack + [site], skip);
      BodyFlagsAreShown(fn, rest, stack, skip);
      FlagsAppend(Events(callee, stack + [site]), BodyEvents(rest, stack), skip);
      assert stack + [site] != [];
  }

  // ---- The intended reading: skipped activations disappear with everything they call ----

  function CutSubtrees(a: Activation, stack: seq<Instr>, skip: seq<string>): seq<Event>
    decreases a
  {
    (if a.fn in skip then [] else CutSubtreesBody(a.body, stack, skip) + [ActivationEvent(a, stack)]) +
    match a
    case Returns(_, _, _) => []
    case TailCalls(_, _, _, next) => CutSubtrees(next, stack, skip)
  }

  function CutSubtreesBody(b: Body, stack: seq<Instr>, skip: seq<string>): seq<Event>
    decreases b
  {
    match b
    case End => []
    case Straight(_, rest) => CutSubtreesBody(rest, stack, skip)
    case CallSite(site, callee, rest) =>
      CutSubtrees(callee, stack + [site], skip) + CutSubtreesBody(rest, stack, skip)
  }

  /** The same as flags: an activation is wanted if it is not skipped and no calling ancestor is. */
  function Wanted(a: Activation, cut: bool, skip: seq<string>): (flags: seq<bool>)
    ensures |flags| == Activations(a)
    decreases a
  {
    WantedBody(a.body, cut || a.fn in skip, skip) + [!cut && a.fn !in skip] +
    match a
    case Returns(_, _, _) => []
    case TailCalls(_, _, _, next) => Wanted(next, cut, skip)
  }

  function WantedBody(b: Body, cut: bool, skip: seq<string>): (flags: seq<bool>)
    ensures |flags| == ActivationsBody(b)
    decreases b
  {
    match b
    case End => []
    case Straight(_, rest) => WantedBody(rest, cut, skip)
    case CallSite(_, callee, rest) => Wanted(callee, cut, skip) + WantedBody(rest, cut, skip)
  }

  /** Selecting the wanted events cuts the skipped subtrees out of the tree. */
  lemma {:induction false} WantedIsCut(a: Activation, stack: seq<Instr>, cut: bool, skip: seq<string>)
    ensures |Events(a, stack)| == |Wanted(a, cut, skip)|
    ensures Select(Events(a, stack), Wanted(a, cut, skip)) == if cut then [] else CutSubtrees(a, stack, skip)
    decreases a
  {
    EventsCountActivations(a, stack);
    WantedBodyIsCut(a.body, stack, cut || a.fn in skip, skip);
    if a.TailCalls? {
      WantedIsCut(a.next, stack, cut, skip);
    }
    SelectAround(
      BodyEvents(a.body, stack), WantedBody(a.body, cut || a.fn in skip, skip),
      ActivationEvent(a, stack), !cut && a.fn !in skip,
      if a.TailCalls? then Events(a.next, stack) else [], if a.TailCalls? then Wanted(a.next, cut, skip) else []);
  }

  lemma {:induction false} WantedBodyIsCut(b: Body, stack: seq<Instr>, cut: bool, skip: seq<string>)
    ensures |BodyEvents(b, stack)| == |WantedBody(b, cut, skip)|
    ensures Select(BodyEvents(b, stack), WantedBody(b, cut, skip))
      == if cut then [] else CutSubtreesBody(b, stack, skip)
    decreases b
  {
    BodyEventsCountActivations(b, stack);
    match b
    case End =>
    case Straight(_, rest) => WantedBodyIsCut(rest, stack, cut, skip);
    case CallSite(site, callee, rest) =>
      WantedIsCut(callee, stack + [site], cut, skip);
      WantedBodyIsCut(rest, stack, cut, skip);
      SelectAppend(Events(callee, stack + [site]), Wanted(callee, cut, skip),
                   BodyEvents(rest, stack), WantedBody(rest, cut, skip));
  }

  // ---- Exactly when the two agree ----

  /** Wherever an activation is not itself skipped, it is hidden if and only if a calling ancestor is skipped. */
  predicate Agrees(a: Activation, root: bool, above: bool, cut: bool, skip: seq<string>)
    decreases a
  {
    && (a.fn in skip || (Hidden(root, above, skip) <==> cut))
    && AgreesBody(a.body, above || Cuts(a.fn, skip), cut || a.fn in skip, skip)
    && (a.TailCalls? ==> Agrees(a.next, root, above, cut, skip))
  }

  predicate AgreesBody(b: Body, above: bool, cut: bool, skip: seq<string>)
    decreases b
  {
    match b
    case End => true
    case Straight(_, rest) => AgreesBody(rest, above, cut, skip)
    case CallSite(_, callee, rest) =>
      Agrees(callee, false, above, cut, skip) && AgreesBody(rest, above, cut, skip)
  }

  lemma ConcatEqual(a: seq<bool>, b: seq<bool>, c: seq<bool>, d: seq<bool>)
    requires |a| == |c|
    ensures a + b == c + d <==> a == c && b == d
  {
    assert a == (a + b)[..|a|] && c == (c + d)[..|a|];
    assert b == (a + b)[|a|..] && d == (c + d)[|a|..];
  }

  lemma {:induction false} ShownIsWanted(a: Activation, root: bool, above: bool, cut: bool, skip: seq<string>)
    ensures Shown(a, root, above, skip) == Wanted(a, cut, skip) <==> Agrees(a, root, above, cut, skip)
    decreases a
  {
    var shown := ShownBody(a.body, above || Cuts(a.fn, skip), skip);
    var wanted := WantedBody(a.body, cut || a.fn in skip, skip);
    var own, ideal := [!Hidden(root, above, skip) && a.fn !in skip], [!cut && a.fn !in skip];
    ShownBodyIsWanted(a.body, above || Cuts(a.fn, skip), cut || a.fn in skip, skip);
    ConcatEqual(shown, own, wanted, ideal);
    assert own == ideal <==> own[0] == ideal[0];
    match a
    case Returns(_, _, _) =>
      assert Shown(a, root, above, skip) == shown + own && Wanted(a, cut, skip) == wanted + ideal;
    case TailCalls(_, _, _, next) =>
      ShownIsWanted(next, root, above, cut, skip);
      ConcatEqual(shown + own, Shown(next, root, above, skip), wanted + ideal, Wanted(next, cut, skip));
  }

  lemma {:induction false} ShownBodyIsWanted(b: Body, above: bool, cut: bool, skip: seq<string>)
    ensures ShownBody(b, above, skip) == WantedBody(b, cut, skip) <==> AgreesBody(b, above, cut, skip)
    decreases b
  {
    match b
    case End =>
    case Straight(_, rest) => ShownBodyIsWanted(rest, above, cut, skip);
    case CallSite(_, callee, rest) =>
      ShownIsWanted(callee, false, above, cut, skip);
      ShownBodyIsWanted(rest, above, cut, skip);
      ConcatEqual(Shown(callee, false, above, skip), ShownBody(rest, above, skip),
                  Wanted(callee, cut, skip), WantedBody(rest, cut, skip));
  }

  /**
   * On the trace of any call tree the filter keeps exactly the wanted activations if and only if the tree agrees;
   * and when it does, what is left is the tree with its skipped subtrees cut out.
   */
  lemma FilterExactly(a: Activation, stack: seq<Instr>, skip: seq<string>)
    requires Sited(a)
    ensures Flags(Events(a, stack), skip) == Wanted(a, false, skip)
      <==> Agrees(a, stack == [], Above(stack, skip), false, skip)
    ensures Agrees(a, stack == [], Above(stack, skip), false, skip) ==>
      Filter(Events(a, stack), skip) == CutSubtrees(a, stack, skip)
  {
    FlagsAreShown(a, stack, skip);
    ShownIsWanted(a, stack == [], Above(stack, skip), false, skip);
    FilterIsSelect(Events(a, stack), skip);
    WantedIsCut(a, stack, false, skip);
  }

  // ---- Names that always agree, and names that do not ----

  /** Every function of the tree cuts its callees exactly when it is itself skipped. */
  predicate Aligned(a: Activation, skip: seq<string>)
    decreases a
  {
    && (Cuts(a.fn, skip) <==> a.fn in skip)
    && AlignedBody(a.body, skip)
    && (a.TailCalls? ==> Aligned(a.next, skip))
  }

  predicate AlignedBody(b: Body, skip: seq<string>)
    decreases b
  {
    match b
    case End => true
    case Straight(_, rest) => AlignedBody(rest, skip)
    case CallSite(_, callee, rest) => Aligned(callee, skip) && AlignedBody(rest, skip)
  }

  lemma {:induction false} AlignedAgrees(a: Activation, root: bool, cut: bool, skip: seq<string>)
    requires Aligned(a, skip) && "" !in skip
    ensures Agrees(a, root, cut, cut, skip)
    decreases a
  {
    AlignedBodyAgrees(a.body, cut || a.fn in skip, skip);
    if a.TailCalls? {
      AlignedAgrees(a.next, root, cut, skip);
    }
  }

  lemma {:induction false} AlignedBodyAgrees(b: Body, cut: bool, skip: seq<string>)
    requires AlignedBody(b, skip) && "" !in skip
    ensures AgreesBody(b, cut, cut, skip)
    decreases b
  {
    match b
    case End =>
    case Straight(_, rest) => AlignedBodyAgrees(rest, cut, skip);
    case CallSite(_, callee, rest) =>
      AlignedAgrees(callee, false, cut, skip);
      AlignedBodyAgrees(rest, cut, skip);
  }

  predicate SlashFree(a: Activation)
    decreases a
  {
    '/' !in a.fn && SlashFreeBody(a.body) && (a.TailCalls? ==> SlashFree(a.next))
  }

  predicate SlashFreeBody(b: Body)
    decreases b
  {
    match b
    case End => true
    case Straight(_, rest) => SlashFreeBody(rest)
    case CallSite(_, callee, rest) => SlashFree(callee) && SlashFreeBody(rest)
  }

  lemma {:induction false} SlashFreeIsAligned(a: Activation, skip: seq<string>)
    requires SlashFree(a)
    ensures Aligned(a, skip)
    decreases a
  {
    SplitSlashFree(a.fn);
    assert a.fn in [a.fn];
    SlashFreeBodyIsAligned(a.body, skip);
    if a.TailCalls? {
      SlashFreeIsAligned(a.next, skip);
    }
  }

  lemma {:induction false} SlashFreeBodyIsAligned(b: Body, skip: seq<string>)
    requires SlashFreeBody(b)
    ensures AlignedBody(b, skip)
    decreases b
  {
    match b
    case End =>
    case Straight(_, rest) => SlashFreeBodyIsAligned(rest, skip);
    case CallSite(_, callee, rest) =>
      SlashFreeIsAligned(callee, skip);
      SlashFreeBodyIsAligned(rest, skip);
  }

  /** `fn` calls `g` once and returns. */
  function OneCall(fn: string, site: Instr, exit: Instr, g: string, inner: Instr): Activation {
    Returns(fn, CallSite(site, Returns(g, End, inner), End), exit)
  }

  /** The filtered trace of one call, for all names. */
  lemma FilterOneCall(fn: string, site: Instr, exit: Instr, g: string, inner: Instr, skip: seq<string>)
    requires site.fn == exit.fn == fn && inner.fn == g && "" !in skip
    ensures var a, callee := OneCall(fn, site, exit, g, inner), Returns(g, End, inner);
      && Filter(Events(a, []), skip)
         == (if Cuts(fn, skip) || g in skip then [] else [ActivationEvent(callee, [site])])
            + (if fn in skip then [] else [ActivationEvent(a, [])])
      && CutSubtrees(a, [], skip)
         == if fn in skip then []
            else (if g in skip then [] else [ActivationEvent(callee, [site])]) + [ActivationEvent(a, [])]
  {
    var a, callee := OneCall(fn, site, exit, g, inner), Returns(g, End, inner);
    var e, f := ActivationEvent(callee, [site]), ActivationEvent(a, []);
    OneCallEvents(fn, site, exit, g, inner, skip);
    KeepsOneCall(fn, site, exit, g, inner, skip);
    FilterTwo(e, f, skip);
  }

  lemma {:induction false} FilterTwo(e: Event, f: Event, skip: seq<string>)
    ensures Filter([e, f], skip) == (if Keeps(e, skip) then [e] else []) + (if Keeps(f, skip) then [f] else [])
  {
    assert [e, f][1..] == [f] && [f][1..] == [];
    assert Filter([f], skip) == (if Keeps(f, skip) then [f] else []) + Filter([], skip);
  }

  lemma OneCallEvents(fn: string, site: Instr, exit: Instr, g: string, inner: Instr, skip: seq<string>)
    ensures var a, callee := OneCall(fn, site, exit, g, inner), Returns(g, End, inner);
      && Events(a, []) == [ActivationEvent(callee, [site]), ActivationEvent(a, [])]
      && CutSubtrees(a, [], skip)
         == if fn in skip then []
            else (if g in skip then [] else [ActivationEvent(callee, [site])]) + [ActivationEvent(a, [])]
  {
    var a, callee := OneCall(fn, site, exit, g, inner), Returns(g, End, inner);
    var e := ActivationEvent(callee, [site]);
    assert [] + [site] == [site];
    assert Events(callee, [site]) == [e] && BodyEvents(a.body, []) == [e];
    assert CutSubtrees(callee, [site], skip) == if g in skip then [] else [e];
    assert CutSubtreesBody(a.body, [], skip) == if g in skip then [] else [e];
  }

  lemma KeepsOneCall(fn: string, site: Instr, exit: Instr, g: string, inner: Instr, skip: seq<string>)
    requires site.fn == fn && "" !in skip
    ensures Keeps(ActivationEvent(Returns(g, End, inner), [site]), skip) <==> !Cuts(fn, skip) && g !in skip
    ensures Keeps(ActivationEvent(OneCall(fn, site, exit, g, inner), []), skip) <==> fn !in skip
  {
    assert [] + [site] == [site];
    AboveSite([], site, skip);
    StackHidden([], skip);
    StackHidden([site], skip);
  }

  /**
   * The converse of alignment: as soon as one name cuts its callees without being skipped, or is skipped without
   * cutting them, the trace of a single call from it to a function that is not skipped is filtered wrongly.
   */
  lemma MisalignedFails(fn: string, site: Instr, exit: Instr, g: string, inner: Instr, skip: seq<string>)
    requires site.fn == exit.fn == fn && inner.fn == g && "" !in skip && g !in skip
    ensures Filter(Events(OneCall(fn, site, exit, g, inner), []), skip)
         == CutSubtrees(OneCall(fn, site, exit, g, inner), [], skip)
      <==> (Cuts(fn, skip) <==> fn in skip)
  {
    FilterOneCall(fn, site, exit, g, inner, skip);
  }

  lemma SlashPieces()
    ensures SplitSlash("a/b") == ["a", "b"]
  {
    SplitConcat("a", "b");
    SplitSlashFree("a");
    SplitSlashFree("b");
    assert "a" + "/" + "b" == "a/b";
  }

  /** Skipping "a" hides what "a/b" calls, although neither the caller nor the callee is skipped. */
  lemma SlashHidesTooMuch(site: Instr, exit: Instr, inner: Instr)
    requires site.fn == exit.fn == "a/b" && inner.fn == "g"
    ensures var a := OneCall("a/b", site, exit, "g", inner);
      Filter(Events(a, []), ["a"]) == [ActivationEvent(a, [])] && |CutSubtrees(a, [], ["a"])| == 2
  {
    SlashPieces();
    assert "a" in ["a", "b"] && "a" in ["a"];
    assert |"a/b"| == 3 && |"a"| == 1 && |""| == 0 && "g"[0] != "a"[0];
    FilterOneCall("a/b", site, exit, "g", inner, ["a"]);
  }

  /** Skipping "a/b" drops its own event and keeps everything it calls. */
  lemma SlashHidesTooLittle(site: Instr, exit: Instr, inner: Instr)
    requires site.fn == exit.fn == "a/b" && inner.fn == "g"
    ensures var a := OneCall("a/b", site, exit, "g", inner);
      && Filter(Events(a, []), ["a/b"]) == [ActivationEvent(Returns("g", End, inner), [site])]
      && CutSubtrees(a, [], ["a/b"]) == []
  {
    SlashPieces();
    assert |"a/b"| == 3 && |"a"| == 1 && |"b"| == 1 && |""| == 0 && |"g"| == 1;
    assert !Cuts("a/b", ["a/b"]) by {
      assert forall n :: n in ["a", "b"] ==> |n| == 1;
    }
    FilterOneCall("a/b", site, exit, "g", inner, ["a/b"]);
  }

  /** An empty name in the skip list hides every function of the root's tail-call chain. */
  lemma EmptySkipHidesRoot(a: Activation, skip: seq<string>)
    requires Sited(a) && "" in skip && a.fn !in skip
    ensures Flags(Events(a, []), skip) != Wanted(a, false, skip)
  {
    FilterExactly(a, [], skip);
  }

  // ---- Exactly which names are filtered as intended in every tree ----

  ghost predicate Over(a: Activation, names: set<string>)
    decreases a
  {
    a.fn in names && OverBody(a.body, names) && (a.TailCalls? ==> Over(a.next, names))
  }

  ghost predicate OverBody(b: Body, names: set<string>)
    decreases b
  {
    match b
    case End => true
    case Straight(_, rest) => OverBody(rest, names)
    case CallSite(_, callee, rest) => Over(callee, names) && OverBody(rest, names)
  }

  /** All skipped, so that nothing is wanted; or cut exactly when skipped, with no empty name in the skip list. */
  ghost predicate SafeNames(names: set<string>, skip: seq<string>) {
    || (forall n :: n in names ==> n in skip)
    || ("" !in skip && forall n :: n in names ==> (Cuts(n, skip) <==> n in skip))
  }

  lemma {:induction false} SafeAgrees(a: Activation, root: bool, cut: bool, names: set<string>, skip: seq<string>)
    requires Over(a, names) && SafeNames(names, skip)
    ensures Agrees(a, root, cut, cut, skip)
    decreases a
  {
    if forall n :: n in names ==> n in skip {
      SkippedAgrees(a, root, cut, cut, names, skip);
    } else {
      OverIsAligned(a, names, skip);
      AlignedAgrees(a, root, cut, skip);
    }
  }

  lemma {:induction false} SkippedAgrees(
    a: Activation, root: bool, above: bool, cut: bool, names: set<string>, skip: seq<string>)
    requires Over(a, names) && forall n :: n in names ==> n in skip
    ensures Agrees(a, root, above, cut, skip)
    decreases a
  {
    SkippedBodyAgrees(a.body, above || Cuts(a.fn, skip), cut || a.fn in skip, names, skip);
    if a.TailCalls? {
      SkippedAgrees(a.next, root, above, cut, names, skip);
    }
  }

  lemma {:induction false} SkippedBodyAgrees(b: Body, above: bool, cut: bool, names: set<string>, skip: seq<string>)
    requires OverBody(b, names) && forall n :: n in names ==> n in skip
    ensures AgreesBody(b, above, cut, skip)
    decreases b
  {
    match b
    case End =>
    case Straight(_, rest) => SkippedBodyAgrees(rest, above, cut, names, skip);
    case CallSite(_, callee, rest) =>
      SkippedAgrees(callee, false, above, cut, names, skip);
      SkippedBodyAgrees(rest, above, cut, names, skip);
  }

  lemma {:induction false} OverIsAligned(a: Activation, names: set<string>, skip: seq<string>)
    requires Over(a, names) && forall n :: n in names ==> (Cuts(n, skip) <==> n in skip)
    ensures Aligned(a, skip)
    decreases a
  {
    OverBodyIsAligned(a.body, names, skip);
    if a.TailCalls? {
      OverIsAligned(a.next, names, skip);
    }
  }

  lemma {:induction false} OverBodyIsAligned(b: Body, names: set<string>, skip: seq<string>)
    requires OverBody(b, names) && forall n :: n in names ==> (Cuts(n, skip) <==> n in skip)
    ensures AlignedBody(b, skip)
    decreases b
  {
    match b
    case End =>
    case Straight(_, rest) => OverBodyIsAligned(rest, names, skip);
    case CallSite(_, callee, rest) =>
      OverIsAligned(callee, names, skip);
      OverBodyIsAligned(rest, names, skip);
  }

  function AnyInstr(fn: string): Instr {
    Instr(Jal, [], 0, 0, 0, 0, fn)
  }

  /** A tree over names that are not safe, which the filter gets wrong. */
  lemma UnsafeTree(names: set<string>, skip: seq<string>) returns (a: Activation)
    requires !SafeNames(names, skip)
    ensures Sited(a) && Over(a, names) && Filter(Events(a, []), skip) != CutSubtrees(a, [], skip)
  {
    var g :| g in names && g !in skip;
    var inner := AnyInstr(g);
    if "" in skip {
      a := Returns(g, End, inner);
      var e := ActivationEvent(a, []);
      StackHidden([], skip);
      assert e.callStack == JoinSlash(StackNames([])) && !Keeps(e, skip);
      assert Events(a, []) == [e];
      assert [e][1..] == [] && Filter([e], skip) == Filter([], skip) == [];
    } else {
      var n :| n in names && !(Cuts(n, skip) <==> n in skip);
      a := OneCall(n, AnyInstr(n), AnyInstr(n), g, inner);
      MisalignedFails(n, AnyInstr(n), AnyInstr(n), g, inner, skip);
      var callee := a.body.callee;
      assert Sited(callee) && Over(callee, names) && SitedBody(n, a.body) && OverBody(a.body, names);
    }
  }

  /**
   * The names for which every call tree is filtered as intended: exactly those that are all skipped, or that cut
   * their callees exactly when they are skipped while no empty name is skipped.
   */
  lemma NamesFilteredExactly(names: set<string>, skip: seq<string>)
    ensures SafeNames(names, skip) <==>
      forall a :: Sited(a) && Over(a, names) ==> Filter(Events(a, []), skip) == CutSubtrees(a, [], skip)
  {
    if SafeNames(names, skip) {
      forall a | Sited(a) && Over(a, names)
        ensures Filter(Events(a, []), skip) == CutSubtrees(a, [], skip)
      {
        SafeAgrees(a, true, false, names, skip);
        FilterExactly(a, [], skip);
      }
    } else {
      var _ := UnsafeTree(names, skip);
    }
  }

  // ---- Whole traces ----

  function CutVisits(visits: seq<Visit>, skip: seq<string>): seq<Event> {
    if visits == [] then [] else CutSubtrees(visits[0].root, [], skip) + CutVisits(visits[1..], skip)
  }

  function WantedVisits(visits: seq<Visit>, skip: seq<string>): seq<bool> {
    if visits == [] then [] else Wanted(visits[0].root, false, skip) + WantedVisits(visits[1..], skip)
  }

  predicate AgreesVisits(visits: seq<Visit>, skip: seq<string>)
    decreases |visits|
  {
    visits == [] || (Agrees(visits[0].root, true, false, false, skip) && AgreesVisits(visits[1..], skip))
  }

  lemma {:induction false} VisitFlags(cfg: Config, visits: seq<Visit>, skip: seq<string>)
    requires TargetVisits(cfg, visits)
    ensures Flags(VisitEvents(visits), skip) == WantedVisits(visits, skip) <==> AgreesVisits(visits, skip)
    decreases |visits|
  {
    if visits != [] {
      var root, rest := visits[0].root, visits[1..];
      ShapedIsSited(cfg, root);
      FilterExactly(root, [], skip);
      VisitFlags(cfg, rest, skip);
      EventsCountActivations(root, []);
      FlagsConcat(Events(root, []), VisitEvents(rest), Wanted(root, false, skip), WantedVisits(rest, skip), skip);
    }
  }

  lemma FlagsConcat(first: seq<Event>, more: seq<Event>, f: seq<bool>, g: seq<bool>, skip: seq<string>)
    requires |first| == |f|
    ensures Flags(first + more, skip) == f + g <==> Flags(first, skip) == f && Flags(more, skip) == g
  {
    FlagsAppend(first, more, skip);
    ConcatEqual(Flags(first, skip), Flags(more, skip), f, g);
  }

  lemma {:induction false} VisitCuts(visits: seq<Visit>, skip: seq<string>)
    ensures |VisitEvents(visits)| == |WantedVisits(visits, skip)|
    ensures Select(VisitEvents(visits), WantedVisits(visits, skip)) == CutVisits(visits, skip)
    decreases |visits|
  {
    if visits != [] {
      var root, rest := visits[0].root, visits[1..];
      WantedIsCut(root, [], false, skip);
      VisitCuts(rest, skip);
      SelectAppend(Events(root, []), Wanted(root, false, skip), VisitEvents(rest), WantedVisits(rest, skip));
    }
  }

  /**
   * A traced and filtered log with any number of target runs: exactly the wanted activations are kept if and only
   * if every visited tree agrees, and then the log is the visited trees with their skipped subtrees cut out.
   */
  lemma FilteredTrace(cfg: Config, visits: seq<Visit>, rest: seq<Instr>, skip: seq<string>)
    requires cfg.target.Some? && TargetVisits(cfg, visits) && RestOfLog(cfg, visits, rest)
    ensures Run(cfg, Init(cfg), FlattenVisits(visits, rest)).Success?
    ensures var events := Run(cfg, Init(cfg), FlattenVisits(visits, rest)).value.events;
      && (Flags(events, skip) == WantedVisits(visits, skip) <==> AgreesVisits(visits, skip))
      && (AgreesVisits(visits, skip) ==> Filter(events, skip) == CutVisits(visits, skip))
  {
    var t := TargetedRun(cfg, Init(cfg), visits, rest);
    assert t.events == [] + VisitEvents(visits) == VisitEvents(visits);
    VisitFlags(cfg, visits, skip);
    VisitCuts(visits, skip);
    FilterIsSelect(t.events, skip);
  }

  /** The same for a trace without a target, which is the body of an outermost function. */
  lemma FilteredUntargetedTrace(cfg: Config, fn: string, b: Body, skip: seq<string>)
    requires cfg.target == None && !cfg.debug && b.CallSite?
    requires ShapedBody(cfg, fn, b) && SelfEdgesBody(fn, b) == 0
    ensures Run(cfg, Init(cfg), FlattenBody(b)).Success?
    ensures var events := Run(cfg, Init(cfg), FlattenBody(b)).value.events;
      && (Flags(events, skip) == WantedBody(b, fn in skip, skip)
          <==> AgreesBody(b, Cuts(fn, skip), fn in skip, skip))
      && (AgreesBody(b, Cuts(fn, skip), fn in skip, skip) ==>
            Filter(events, skip) == if fn in skip then [] else CutSubtreesBody(b, [], skip))
  {
    UntargetedRun(cfg, fn, b);
    ShapedBodyIsSited(cfg, fn, b);
    BodyFlagsAreShown(fn, b, [], skip);
    ShownBodyIsWanted(b, Cuts(fn, skip), fn in skip, skip);
    FilterIsSelect(BodyEvents(b, []), skip);
    WantedBodyIsCut(b, [], fn in skip, skip);
  }
}
