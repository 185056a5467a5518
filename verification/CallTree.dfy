/** Call trees, the instruction streams they retire, and the proof that the trace machine inverts the flattening. */
module CallTree {
  import opened Wrappers
  import opened Symbols
  import opened Instructions
  import opened TraceMachine

  /** One activation of `fn`: its body, then either a return or a tail call to the next activation. */
  datatype Activation =
    | Returns(fn: string, body: Body, exit: Instr)
    | TailCalls(fn: string, body: Body, exit: Instr, next: Activation)

  datatype Body =
    | End
    | Straight(instr: Instr, rest: Body)
    | CallSite(site: Instr, callee: Activation, rest: Body)

  function Flatten(a: Activation): seq<Instr> {
    match a
    case Returns(_, body, exit) => FlattenBody(body) + [exit]
    case TailCalls(_, body, exit, next) => FlattenBody(body) + [exit] + Flatten(next)
  }

  function FlattenBody(b: Body): seq<Instr> {
    match b
    case End => []
    case Straight(i, rest) => [i] + FlattenBody(rest)
    case CallSite(site, callee, rest) => [site] + Flatten(callee) + FlattenBody(rest)
  }

  /** The first instruction that an activation retires. */
  function First(a: Activation): Instr {
    match a.body
    case End => a.exit
    case Straight(i, _) => i
    case CallSite(site, _, _) => site
  }

  /** The function whose return ends the tail-call chain. */
  function LastFn(a: Activation): string {
    match a
    case Returns(fn, _, _) => fn
    case TailCalls(_, _, _, next) => LastFn(next)
  }

  /** Instruction `i` lies in `fn` and is recognised as `cat`. */
  predicate Is(cfg: Config, i: Instr, fn: string, cat: Cat) {
    i.fn == fn && LookupSym(cfg.syms, i.pc) == fn && Classify(i, cfg.syms) == Success(cat)
  }

  /** Every instruction of the tree lies in its activation's function and plays the role the tree gives it. */
  predicate Shaped(cfg: Config, a: Activation)
    decreases a
  {
    && ShapedBody(cfg, a.fn, a.body)
    && match a
       case Returns(fn, _, exit) => Is(cfg, exit, fn, Return)
       case TailCalls(fn, _, exit, next) => Is(cfg, exit, fn, Tail) && Shaped(cfg, next)
  }

  predicate ShapedBody(cfg: Config, fn: string, b: Body)
    decreases b
  {
    match b
    case End => true
    case Straight(i, rest) => Is(cfg, i, fn, Plain) && ShapedBody(cfg, fn, rest)
    case CallSite(site, callee, rest) =>
      Is(cfg, site, fn, Call) && Shaped(cfg, callee) && ShapedBody(cfg, fn, rest)
  }

  /** The number of call and tail-call edges that stay within one function symbol. */
  function SelfEdges(a: Activation): nat
    decreases a
  {
    SelfEdgesBody(a.fn, a.body) +
    match a
    case Returns(_, _, _) => 0
    case TailCalls(fn, _, _, next) => (if next.fn == fn then 1 else 0) + SelfEdges(next)
  }

  function SelfEdgesBody(fn: string, b: Body): nat
    decreases b
  {
    match b
    case End => 0
    case Straight(_, rest) => SelfEdgesBody(fn, rest)
    case CallSite(_, callee, rest) =>
      (if callee.fn == fn then 1 else 0) + SelfEdges(callee) + SelfEdgesBody(fn, rest)
  }

  /** No return inside the tree is one that switches tracing off. */
  predicate KeepsTracing(cfg: Config, a: Activation)
    decreases a, 1
  {
    TracedToEnd(cfg, a) && cfg.target != Some(LastFn(a))
  }

  /** The same, except that the last instruction may be such a return. */
  predicate TracedToEnd(cfg: Config, a: Activation)
    decreases a, 0
  {
    KeepsTracingBody(cfg, a.body) && (a.TailCalls? ==> TracedToEnd(cfg, a.next))
  }

  predicate KeepsTracingBody(cfg: Config, b: Body)
    decreases b
  {
    match b
    case End => true
    case Straight(_, rest) => KeepsTracingBody(cfg, rest)
    case CallSite(_, callee, rest) => KeepsTracing(cfg, callee) && KeepsTracingBody(cfg, rest)
  }

  // ---- The events a tree stands for ----

  /** The event of one activation: its function, from its first to its last instruction, under its call sites. */
  function ActivationEvent(a: Activation, sites: seq<Instr>): Event {
    Event(
      name := a.fn,
      ts := First(a).cycle,
      dur := a.exit.cycle - First(a).cycle,
      pid := a.exit.pid,
      tid := a.exit.tid,
      callStack := JoinSlash(StackNames(sites)),
      fnAddr := First(a).pc,
      callerAddr := if |sites| > 0 then sites[|sites| - 1].pc else -1)
  }

  /** One event per activation, in completion order. */
  function Events(a: Activation, stack: seq<Instr>): seq<Event> {
    BodyEvents(a.body, stack) + [ActivationEvent(a, stack)] +
    match a
    case Returns(_, _, _) => []
    case TailCalls(_, _, _, next) => Events(next, stack)
  }

  function BodyEvents(b: Body, stack: seq<Instr>): seq<Event> {
    match b
    case End => []
    case Straight(_, rest) => BodyEvents(rest, stack)
    case CallSite(site, callee, rest) => Events(callee, stack + [site]) + BodyEvents(rest, stack)
  }

  function Activations(a: Activation): nat {
    ActivationsBody(a.body) + 1 +
    match a
    case Returns(_, _, _) => 0
    case TailCalls(_, _, _, next) => Activations(next)
  }

  function ActivationsBody(b: Body): nat {
    match b
    case End => 0
    case Straight(_, rest) => ActivationsBody(rest)
    case CallSite(_, callee, rest) => Activations(callee) + ActivationsBody(rest)
  }

  // ---- Running a tree ----

  /** The machine is at an instruction of `fn` whose start is already on the stack. */
  predicate Inside(s: State, fn: string) {
    s.active && ((s.prevCat == Plain && s.prevFn == Some(fn)) || s.prevCat == Return)
  }

  /** What an activation must leave behind. */
  function After(cfg: Config, s: State, a: Activation): State {
    s.(events := s.events + Events(a, s.callStack),
       callStack := Pop(s.callStack),
       prevFn := Some(LastFn(a)), prevCat := Return,
       active := cfg.target != Some(LastFn(a)))
  }

  /** The state in which the first instruction `i` of an activation has already been recorded. */
  function Entered(s: State, i: Instr): State {
    s.(callStarts := s.callStarts + [i], prevCat := Return)
  }

  lemma FlattenStartsWithFirst(a: Activation)
    ensures |Flatten(a)| > 0 && Flatten(a)[0] == First(a)
  {
  }

  /** Entering a function differs from being inside it only by the start that is pushed. */
  lemma {:induction false} EnterIsPush(cfg: Config, s: State, a: Activation)
    requires Shaped(cfg, a) && s.active && Entering(s, a.fn)
    ensures Run(cfg, s, Flatten(a)) == Run(cfg, Entered(s, First(a)), Flatten(a))
  {
    FlattenStartsWithFirst(a);
    var i := First(a);
    assert Resolve(cfg, i) == i;
    assert StartsFor(s, i) == Entered(s, i).callStarts == StartsFor(Entered(s, i), i);
    assert Step(cfg, s, i) == Step(cfg, Entered(s, i), i);
  }

  // One lemma per kind of instruction, each from a state inside the function.

  lemma RunStraight(cfg: Config, s: State, fn: string, i: Instr)
    requires Inside(s, fn) && Is(cfg, i, fn, Plain)
    ensures Run(cfg, s, [i]) == Success(s.(prevFn := Some(fn), prevCat := Plain))
  {
    RunOne(cfg, s, i);
    assert Resolve(cfg, i) == i;
  }

  lemma RunCall(cfg: Config, s: State, fn: string, i: Instr)
    requires Inside(s, fn) && Is(cfg, i, fn, Call)
    ensures Run(cfg, s, [i]) == Success(Called(s, fn, i))
  {
    RunOne(cfg, s, i);
    assert Resolve(cfg, i) == i;
  }

  function Called(s: State, fn: string, site: Instr): State {
    s.(callStack := s.callStack + [site], prevFn := Some(fn), prevCat := Call)
  }

  /** Leaving an activation by `exit` closes the event opened by the start on top of the stack. */
  function Closed(s: State, exit: Instr): State
    requires s.callStarts != []
  {
    s.(events := s.events + [CloseEvent(s.callStack, s.callStarts[|s.callStarts| - 1], exit)],
       callStarts := Pop(s.callStarts), prevFn := Some(exit.fn))
  }

  lemma RunTail(cfg: Config, s: State, fn: string, i: Instr)
    requires Inside(s, fn) && Is(cfg, i, fn, Tail) && s.callStarts != []
    ensures Run(cfg, s, [i]) == Success(Closed(s, i).(prevCat := Tail))
  {
    RunOne(cfg, s, i);
    assert Resolve(cfg, i) == i;
  }

  lemma RunReturn(cfg: Config, s: State, fn: string, i: Instr)
    requires Inside(s, fn) && Is(cfg, i, fn, Return) && s.callStarts != []
    ensures Run(cfg, s, [i]) == Success(Closed(s, i).(
      prevCat := Return, callStack := Pop(s.callStack), active := cfg.target != Some(fn)))
  {
    RunOne(cfg, s, i);
    assert Resolve(cfg, i) == i;
  }

  lemma Chain(cfg: Config, s: State, a: seq<Instr>, t: State, b: seq<Instr>, u: State)
    requires Run(cfg, s, a) == Success(t)
    requires Run(cfg, t, b) == Success(u)
    ensures Run(cfg, s, a + b) == Success(u)
  {
    RunAppend(cfg, s, a, b);
  }

  /** A body run to its end: its events are appended and nothing is left on the stacks. */
  predicate RanBody(cfg: Config, s: State, fn: string, b: Body, t: State) {
    && Run(cfg, s, FlattenBody(b)) == Success(t)
    && Inside(t, fn)
    && t == s.(events := s.events + BodyEvents(b, s.callStack), prevFn := t.prevFn, prevCat := t.prevCat)
  }

  lemma {:induction false} RunBody(cfg: Config, s: State, fn: string, b: Body) returns (t: State)
    requires ShapedBody(cfg, fn, b) && SelfEdgesBody(fn, b) == 0 && KeepsTracingBody(cfg, b)
    requires Inside(s, fn)
    ensures RanBody(cfg, s, fn, b, t)
    decreases b
  {
    match b
    case End =>
      t := s;
    case Straight(i, rest) =>
      var u := s.(prevFn := Some(fn), prevCat := Plain);
      RunStraight(cfg, s, fn, i);
      t := RunBody(cfg, u, fn, rest);
      Chain(cfg, s, [i], u, FlattenBody(rest), t);
    case CallSite(site, callee, rest) =>
      var u := Called(s, fn, site);
      RunCall(cfg, s, fn, site);
      RunActivation(cfg, u, callee);
      var v := After(cfg, u, callee);
      t := RunBody(cfg, v, fn, rest);
      Chain(cfg, s, [site], u, Flatten(callee), v);
      Chain(cfg, s, [site] + Flatten(callee), v, FlattenBody(rest), t);
      CallSiteEvents(cfg, s, fn, b);
  }

  lemma {:induction false} CallSiteEvents(cfg: Config, s: State, fn: string, b: Body)
    requires b.CallSite?
    ensures var v := After(cfg, Called(s, fn, b.site), b.callee);
      && v.callStack == s.callStack
      && v.events + BodyEvents(b.rest, s.callStack) == s.events + BodyEvents(b, s.callStack)
  {
    var inner := Events(b.callee, s.callStack + [b.site]);
    assert Pop(s.callStack + [b.site]) == s.callStack;
    assert BodyEvents(b, s.callStack) == inner + BodyEvents(b.rest, s.callStack);
  }

  /** Closing the activation after its body, and running the rest of the chain, gives the events of the whole. */
  lemma {:induction false} ExitEvents(cfg: Config, s: State, a: Activation, prevFn: Option<string>, prevCat: Cat)
    requires a.exit.fn == a.fn
    ensures var t := Entered(s, First(a)).(
                       events := s.events + BodyEvents(a.body, s.callStack), prevFn := prevFn, prevCat := prevCat);
      match a
      case Returns(_, _, exit) =>
        Closed(t, exit).(prevCat := Return, callStack := Pop(s.callStack), active := cfg.target != Some(a.fn))
          == After(cfg, s, a)
      case TailCalls(_, _, exit, next) =>
        var u := Closed(t, exit).(prevCat := Tail);
        u.callStarts == s.callStarts && u.callStack == s.callStack && After(cfg, u, next) == After(cfg, s, a)
  {
    var event := ActivationEvent(a, s.callStack);
    assert event == CloseEvent(s.callStack, First(a), a.exit);
    assert Pop(s.callStarts + [First(a)]) == s.callStarts;
    match a
    case Returns(_, _, _) =>
      assert Events(a, s.callStack) == BodyEvents(a.body, s.callStack) + [event];
    case TailCalls(_, _, _, next) =>
      assert Events(a, s.callStack) == BodyEvents(a.body, s.callStack) + [event] + Events(next, s.callStack);
      assert s.events + Events(a, s.callStack)
          == s.events + BodyEvents(a.body, s.callStack) + [event] + Events(next, s.callStack);
  }

  /**
   * The machine inverts the flattening: from any state that has just called or tail-called into the tree it
   * raises nothing, emits the tree's events, pops the one call site, and leaves the start stack as it was. Only the
   * last return may be the one that switches tracing off.
   */
  lemma {:induction false} RunActivation(cfg: Config, s: State, a: Activation)
    requires Shaped(cfg, a) && SelfEdges(a) == 0 && TracedToEnd(cfg, a)
    requires s.active && Entering(s, a.fn)
    ensures Run(cfg, s, Flatten(a)) == Success(After(cfg, s, a))
    decreases a
  {
    EnterIsPush(cfg, s, a);
    var e := Entered(s, First(a));
    var t := RunBody(cfg, e, a.fn, a.body);
    ExitEvents(cfg, s, a, t.prevFn, t.prevCat);
    match a
    case Returns(fn, body, exit) =>
      RunReturn(cfg, t, fn, exit);
      Chain(cfg, e, FlattenBody(body), t, [exit], After(cfg, s, a));
    case TailCalls(fn, body, exit, next) =>
      var u := Closed(t, exit).(prevCat := Tail);
      RunTail(cfg, t, fn, exit);
      RunActivation(cfg, u, next);
      Chain(cfg, e, FlattenBody(body), t, [exit], u);
      Chain(cfg, e, FlattenBody(body) + [exit], u, Flatten(next), After(cfg, s, a));
  }

  // ---- Exactly which trees are inverted ----

  /** Any step that stays in the function of the previous one pushes no start and pops one on an exit. */
  lemma {:induction false} StepWithinCounts(cfg: Config, s: State, fn: string, i: Instr, cat: Cat, t: State)
    requires s.active && !Entering(s, fn) && Is(cfg, i, fn, cat)
    requires Run(cfg, s, [i]) == Success(t)
    ensures |t.callStarts| == |s.callStarts| - (if cat in {Tail, Return} then 1 else 0)
    ensures t.prevFn == Some(fn) && t.prevCat == cat
    ensures t.active == (cat != Return || cfg.target != Some(fn))
  {
    RunOne(cfg, s, i);
    assert Resolve(cfg, i) == i;
  }

  lemma SplitRun(cfg: Config, s: State, a: seq<Instr>, b: seq<Instr>, u: State) returns (t: State)
    requires Run(cfg, s, a + b) == Success(u)
    ensures Run(cfg, s, a) == Success(t) && Run(cfg, t, b) == Success(u)
  {
    RunAppend(cfg, s, a, b);
    t := Run(cfg, s, a).value;
  }

  lemma {:induction false} CountBody(cfg: Config, s: State, fn: string, b: Body, t: State)
    requires ShapedBody(cfg, fn, b) && KeepsTracingBody(cfg, b)
    requires s.active && !Entering(s, fn) && Run(cfg, s, FlattenBody(b)) == Success(t)
    ensures |t.callStarts| + SelfEdgesBody(fn, b) == |s.callStarts|
    ensures t.active && !Entering(t, fn)
    decreases b
  {
    match b
    case End =>
    case Straight(i, rest) =>
      var u := SplitRun(cfg, s, [i], FlattenBody(rest), t);
      StepWithinCounts(cfg, s, fn, i, Plain, u);
      CountBody(cfg, u, fn, rest, t);
    case CallSite(site, callee, rest) =>
      var v := SplitRun(cfg, s, [site] + Flatten(callee), FlattenBody(rest), t);
      var u := SplitRun(cfg, s, [site], Flatten(callee), v);
      StepWithinCounts(cfg, s, fn, site, Call, u);
      CountActivation(cfg, u, callee, v);
      CountBody(cfg, v, fn, rest, t);
  }

  /** Every edge within one symbol costs the start stack one entry, because its start is never pushed. */
  lemma {:induction false} CountActivation(cfg: Config, s: State, a: Activation, t: State)
    requires Shaped(cfg, a) && TracedToEnd(cfg, a)
    requires s.active && s.prevCat in {Call, Tail} && Run(cfg, s, Flatten(a)) == Success(t)
    ensures |t.callStarts| + SelfEdges(a) + (if s.prevFn == Some(a.fn) then 1 else 0) == |s.callStarts|
    ensures t.active == (cfg.target != Some(LastFn(a))) && t.prevCat == Return
    decreases a
  {
    var e := if Entering(s, a.fn) then Entered(s, First(a)) else s;
    if Entering(s, a.fn) {
      EnterIsPush(cfg, s, a);
    }
    match a
    case Returns(fn, body, exit) =>
      var u := SplitRun(cfg, e, FlattenBody(body), [exit], t);
      CountBody(cfg, e, fn, body, u);
      StepWithinCounts(cfg, u, fn, exit, Return, t);
    case TailCalls(fn, body, exit, next) =>
      var v := SplitRun(cfg, e, FlattenBody(body) + [exit], Flatten(next), t);
      var u := SplitRun(cfg, e, FlattenBody(body), [exit], v);
      CountBody(cfg, e, fn, body, u);
      StepWithinCounts(cfg, u, fn, exit, Tail, v);
      CountActivation(cfg, v, next, t);
  }

  /** The machine inverts the flattening of a tree if and only if no edge of the tree stays within one symbol. */
  lemma {:induction false} InvertsExactly(cfg: Config, s: State, a: Activation)
    requires Shaped(cfg, a) && TracedToEnd(cfg, a)
    requires s.active && Entering(s, a.fn)
    ensures Run(cfg, s, Flatten(a)) == Success(After(cfg, s, a)) <==> SelfEdges(a) == 0
  {
    if SelfEdges(a) == 0 {
      RunActivation(cfg, s, a);
    } else if Run(cfg, s, Flatten(a)) == Success(After(cfg, s, a)) {
      CountActivation(cfg, s, a, After(cfg, s, a));
    }
  }

  /** Direct recursion into straight-line code is refused outright. */
  lemma {:induction false} SelfCallRaises(cfg: Config, s: State, a: Activation)
    requires Shaped(cfg, a) && a.body.Straight? && !cfg.debug && a.fn != NOSYM
    requires s.active && s.prevCat in {Call, Tail} && s.prevFn == Some(a.fn)
    ensures Run(cfg, s, Flatten(a)) == Failure(RuntimeError)
  {
    FlattenStartsWithFirst(a);
    assert Resolve(cfg, First(a)) == First(a);
    assert Step(cfg, s, First(a)) == Failure(RuntimeError);
  }

  /** Running from one function into another without a jump is refused. */
  lemma FallThroughRaises(cfg: Config, s: State, f: string, g: string, i: Instr, j: Instr)
    requires Inside(s, f) && f != g && !cfg.debug && Is(cfg, i, f, Plain) && Is(cfg, j, g, Plain)
    ensures Run(cfg, s, [i] + [j]) == Failure(RuntimeError)
  {
    RunStraight(cfg, s, f, i);
    var t := s.(prevFn := Some(f), prevCat := Plain);
    RunAppend(cfg, s, [i], [j]);
    RunOne(cfg, t, j);
    assert Resolve(cfg, j) == j;
  }

  lemma {:induction false} EventsCountActivations(a: Activation, stack: seq<Instr>)
    ensures |Events(a, stack)| == Activations(a)
    decreases a
  {
    BodyEventsCountActivations(a.body, stack);
    match a
    case Returns(_, _, _) =>
    case TailCalls(_, _, _, next) => EventsCountActivations(next, stack);
  }

  lemma {:induction false} BodyEventsCountActivations(b: Body, stack: seq<Instr>)
    ensures |BodyEvents(b, stack)| == ActivationsBody(b)
    decreases b
  {
    match b
    case End =>
    case Straight(_, rest) => BodyEventsCountActivations(rest, stack);
    case CallSite(site, callee, rest) =>
      EventsCountActivations(callee, stack + [site]);
      BodyEventsCountActivations(rest, stack);
  }

  // ---- Whole runs of `run_trace` ----

  /** Without a target the trace may open with a call only: any other first instruction raises. */
  lemma {:induction false} UntargetedRun(cfg: Config, fn: string, b: Body)
    requires cfg.target == None && !cfg.debug && b != End
    requires ShapedBody(cfg, fn, b) && SelfEdgesBody(fn, b) == 0
    ensures Run(cfg, Init(cfg), FlattenBody(b)).Success? <==> b.CallSite?
    ensures b.CallSite? ==>
      var t := Run(cfg, Init(cfg), FlattenBody(b)).value;
      t.events == BodyEvents(b, []) && t.callStack == [] && t.callStarts == [] && t.active
  {
    var s := Init(cfg);
    var i := FlattenBody(b)[0];
    assert Resolve(cfg, i) == i;
    if b.CallSite? {
      UntargetedKeepsTracing(cfg, b);
      var inside := s.(prevCat := Return);
      assert Step(cfg, s, i) == Step(cfg, inside, i);
      var t := RunBody(cfg, inside, fn, b);
      assert [] + BodyEvents(b, []) == BodyEvents(b, []);
    } else {
      assert Step(cfg, s, i) == Failure(RuntimeError);
    }
  }

  lemma {:induction false} UntargetedKeepsTracing(cfg: Config, b: Body)
    requires cfg.target == None
    ensures KeepsTracingBody(cfg, b)
    decreases b
  {
    match b
    case End =>
    case Straight(_, rest) => UntargetedKeepsTracing(cfg, rest);
    case CallSite(_, callee, rest) =>
      UntargetedKeepsTracingActivation(cfg, callee);
      UntargetedKeepsTracing(cfg, rest);
  }

  lemma {:induction false} UntargetedKeepsTracingActivation(cfg: Config, a: Activation)
    requires cfg.target == None
    ensures KeepsTracing(cfg, a)
    decreases a
  {
    UntargetedKeepsTracing(cfg, a.body);
    match a
    case Returns(_, _, _) =>
    case TailCalls(_, _, _, next) => UntargetedKeepsTracingActivation(cfg, next);
  }

  /** One run of the target in a retire log, with the other code retired before it. */
  datatype Visit = Visit(gap: seq<Instr>, root: Activation)

  /** A log that visits the target several times and ends with `rest`. */
  function FlattenVisits(visits: seq<Visit>, rest: seq<Instr>): seq<Instr> {
    if visits == [] then rest else visits[0].gap + Flatten(visits[0].root) + FlattenVisits(visits[1..], rest)
  }

  function VisitEvents(visits: seq<Visit>): seq<Event> {
    if visits == [] then [] else Events(visits[0].root, []) + VisitEvents(visits[1..])
  }

  predicate OutsideTarget(cfg: Config, gap: seq<Instr>) {
    forall i :: i in gap ==> cfg.target != Some(LookupSym(cfg.syms, i.pc))
  }

  /** The gap stays out of the target; the root is the target and no return but its last one switches tracing off. */
  predicate TargetVisit(cfg: Config, v: Visit) {
    && OutsideTarget(cfg, v.gap) && cfg.target == Some(v.root.fn)
    && Shaped(cfg, v.root) && SelfEdges(v.root) == 0 && TracedToEnd(cfg, v.root)
  }

  /** The return that ends the root's tail-call chain is one of the target. */
  predicate EndsInTarget(cfg: Config, v: Visit) {
    cfg.target == Some(LastFn(v.root))
  }

  /** Every visit but perhaps the last ends in the target. */
  predicate TargetVisits(cfg: Config, visits: seq<Visit>)
    decreases |visits|
  {
    visits == [] ||
    (&& TargetVisit(cfg, visits[0]) && (|visits| > 1 ==> EndsInTarget(cfg, visits[0]))
     && TargetVisits(cfg, visits[1..]))
  }

  predicate LastEndsInTarget(cfg: Config, visits: seq<Visit>) {
    visits == [] || EndsInTarget(cfg, visits[|visits| - 1])
  }

  /** What the log may hold after its visits: when the last one leaves tracing on, that is said further down. */
  predicate RestOfLog(cfg: Config, visits: seq<Visit>, rest: seq<Instr>) {
    if LastEndsInTarget(cfg, visits) then OutsideTarget(cfg, rest) else rest == []
  }

  predicate Idle(s: State) {
    !s.active && s.callStack == [] && s.callStarts == []
  }

  /** Tracing is on although no activation is open, as if the machine had just seen a return. */
  predicate Lingering(s: State) {
    s.active && s.callStack == [] && s.callStarts == [] && s.prevCat == Return
  }

  lemma {:induction false} RunGap(cfg: Config, s: State, gap: seq<Instr>) returns (t: State)
    requires Idle(s) && OutsideTarget(cfg, gap)
    ensures Run(cfg, s, gap) == Success(t) && Idle(t) && t.events == s.events
    decreases |gap|
  {
    if gap == [] {
      t := s;
    } else {
      assert gap[0] in gap;
      t := RunGap(cfg, s.(prevCat := Plain), gap[1..]);
    }
  }

  function Woken(s: State): State {
    s.(active := true, prevFn := None, prevCat := Call)
  }

  /** An idle machine wakes on the first instruction of the target as if it had just been called. */
  lemma WakeIsEnter(cfg: Config, s: State, a: Activation)
    requires Idle(s) && Shaped(cfg, a) && cfg.target == Some(a.fn)
    ensures Run(cfg, s, Flatten(a)) == Run(cfg, Woken(s), Flatten(a))
  {
    FlattenStartsWithFirst(a);
    assert Resolve(cfg, First(a)) == First(a);
    assert Step(cfg, s, First(a)) == Step(cfg, Woken(s), First(a));
  }

  lemma {:induction false} RunVisit(cfg: Config, s: State, v: Visit) returns (t: State)
    requires Idle(s) && TargetVisit(cfg, v)
    ensures Run(cfg, s, v.gap + Flatten(v.root)) == Success(t) && t.events == s.events + Events(v.root, [])
    ensures if EndsInTarget(cfg, v) then Idle(t) else Lingering(t)
  {
    var a := v.root;
    var u := RunGap(cfg, s, v.gap);
    WakeIsEnter(cfg, u, a);
    var w := Woken(u);
    RunActivation(cfg, w, a);
    t := After(cfg, w, a);
    Chain(cfg, s, v.gap, u, Flatten(a), t);
  }

  lemma RunVisitThen(cfg: Config, s: State, v: Visit, u: State, rest: seq<Instr>, t: State, more: seq<Event>)
    requires Run(cfg, s, v.gap + Flatten(v.root)) == Success(u) && u.events == s.events + Events(v.root, [])
    requires Run(cfg, u, rest) == Success(t) && t.events == u.events + more
    ensures Run(cfg, s, v.gap + Flatten(v.root) + rest) == Success(t)
    ensures t.events == s.events + (Events(v.root, []) + more)
  {
    Chain(cfg, s, v.gap + Flatten(v.root), u, rest, t);
  }

  /** With a target, the whole log yields exactly the events of the target's runs, one tree after the other. */
  lemma {:induction false} TargetedRun(cfg: Config, s: State, visits: seq<Visit>, rest: seq<Instr>) returns (t: State)
    requires Idle(s) && TargetVisits(cfg, visits) && RestOfLog(cfg, visits, rest)
    ensures Run(cfg, s, FlattenVisits(visits, rest)) == Success(t) && t.events == s.events + VisitEvents(visits)
    ensures if LastEndsInTarget(cfg, visits) then Idle(t) else Lingering(t)
    decreases |visits|
  {
    if visits == [] {
      t := RunGap(cfg, s, rest);
    } else {
      var u := RunVisit(cfg, s, visits[0]);
      if EndsInTarget(cfg, visits[0]) {
        t := TargetedRun(cfg, u, visits[1..], rest);
      } else {
        t := u;
      }
      RunVisitThen(cfg, s, visits[0], u, FlattenVisits(visits[1..], rest), t, VisitEvents(visits[1..]));
    }
  }

  // ---- A target that leaves by a tail call ----

  lemma {:induction false} FlattenVisitsLast(visits: seq<Visit>, rest: seq<Instr>)
    ensures FlattenVisits(visits, rest) == FlattenVisits(visits, []) + rest
    decreases |visits|
  {
    if visits != [] {
      FlattenVisitsLast(visits[1..], rest);
    }
  }

  lemma LeavingRaises(cfg: Config, s: State, fn: string, exit: Instr, cat: Cat)
    requires Inside(s, fn) && s.callStarts == [] && cat in {Tail, Return} && Is(cfg, exit, fn, cat)
    ensures Run(cfg, s, [exit]) == Failure(AssertionError)
  {
    RunOne(cfg, s, exit);
    assert Resolve(cfg, exit) == exit;
  }

  /** Tracing goes on in whatever function follows, and raises when that function is left. */
  lemma LingeringRaises(cfg: Config, s: State, fn: string, b: Body, exit: Instr, cat: Cat)
    requires Lingering(s) && ShapedBody(cfg, fn, b) && SelfEdgesBody(fn, b) == 0 && KeepsTracingBody(cfg, b)
    requires cat in {Tail, Return} && Is(cfg, exit, fn, cat)
    ensures Run(cfg, s, FlattenBody(b)).Success?
    ensures Run(cfg, s, FlattenBody(b)).value.events == s.events + BodyEvents(b, [])
    ensures Run(cfg, s, FlattenBody(b) + [exit]) == Failure(AssertionError)
  {
    var t := RunBody(cfg, s, fn, b);
    LeavingRaises(cfg, t, fn, exit, cat);
    RunAppend(cfg, s, FlattenBody(b), [exit]);
  }

  /**
   * Back in the code that called the target, up to the point where that code is left in turn: the log is traced
   * if and only if the last visit ends in the target.
   */
  lemma {:induction false} ReturningExactly(
    cfg: Config, s: State, visits: seq<Visit>, fn: string, b: Body, exit: Instr, cat: Cat)
    requires Idle(s) && TargetVisits(cfg, visits)
    requires ShapedBody(cfg, fn, b) && SelfEdgesBody(fn, b) == 0 && cat in {Tail, Return} && Is(cfg, exit, fn, cat)
    requires OutsideTarget(cfg, FlattenBody(b) + [exit])
    ensures var run := Run(cfg, s, FlattenVisits(visits, FlattenBody(b) + [exit]));
      && (run.Success? <==> LastEndsInTarget(cfg, visits))
      && (run.Failure? ==> run == Failure(AssertionError))
  {
    var rest := FlattenBody(b) + [exit];
    if LastEndsInTarget(cfg, visits) {
      var _ := TargetedRun(cfg, s, visits, rest);
    } else {
      var t := TargetedRun(cfg, s, visits, []);
      QuietBody(cfg, fn, b);
      LingeringRaises(cfg, t, fn, b, exit, cat);
      FlattenVisitsLast(visits, rest);
      RunAppend(cfg, s, FlattenVisits(visits, []), rest);
    }
  }

  // ---- A target that re-enters itself ----

  /** A return of the target. */
  predicate Switches(cfg: Config, i: Instr) {
    var r := Resolve(cfg, i);
    cfg.target == Some(r.fn) && Classify(r, cfg.syms) == Success(Return)
  }

  predicate Quiet(cfg: Config, stream: seq<Instr>) {
    forall i :: i in stream ==> !Switches(cfg, i)
  }

  /** The instructions of an activation up to the return that ends its chain. */
  function BeforeLast(a: Activation): seq<Instr> {
    match a
    case Returns(_, body, _) => FlattenBody(body)
    case TailCalls(_, body, exit, next) => FlattenBody(body) + [exit] + BeforeLast(next)
  }

  function LastExit(a: Activation): Instr {
    match a
    case Returns(_, _, exit) => exit
    case TailCalls(_, _, _, next) => LastExit(next)
  }

  lemma {:induction false} SplitLast(cfg: Config, a: Activation)
    requires Shaped(cfg, a)
    ensures Flatten(a) == BeforeLast(a) + [LastExit(a)]
    ensures Is(cfg, LastExit(a), LastFn(a), Return)
    decreases a
  {
    if a.TailCalls? {
      SplitLast(cfg, a.next);
    }
  }

  /** Tracing is kept on up to the end exactly when no instruction before the last is a return of the target. */
  lemma {:induction false} QuietActivation(cfg: Config, a: Activation)
    requires Shaped(cfg, a)
    ensures TracedToEnd(cfg, a) <==> Quiet(cfg, BeforeLast(a))
    ensures KeepsTracing(cfg, a) <==> Quiet(cfg, Flatten(a))
    decreases a
  {
    SplitLast(cfg, a);
    QuietBody(cfg, a.fn, a.body);
    if a.TailCalls? {
      QuietActivation(cfg, a.next);
      QuietConcat(cfg, FlattenBody(a.body) + [a.exit], BeforeLast(a.next));
      QuietConcat(cfg, FlattenBody(a.body), [a.exit]);
    }
    QuietConcat(cfg, BeforeLast(a), [LastExit(a)]);
    assert LastExit(a) in [LastExit(a)];
  }

  lemma {:induction false} QuietBody(cfg: Config, fn: string, b: Body)
    requires ShapedBody(cfg, fn, b)
    ensures KeepsTracingBody(cfg, b) <==> Quiet(cfg, FlattenBody(b))
    ensures OutsideTarget(cfg, FlattenBody(b)) ==> KeepsTracingBody(cfg, b)
    decreases b
  {
    match b
    case End =>
    case Straight(i, rest) =>
      QuietBody(cfg, fn, rest);
      QuietConcat(cfg, [i], FlattenBody(rest));
    case CallSite(site, callee, rest) =>
      QuietActivation(cfg, callee);
      QuietBody(cfg, fn, rest);
      QuietConcat(cfg, [site], Flatten(callee));
      QuietConcat(cfg, [site] + Flatten(callee), FlattenBody(rest));
  }

  lemma QuietConcat(cfg: Config, a: seq<Instr>, b: seq<Instr>)
    ensures Quiet(cfg, a + b) <==> Quiet(cfg, a) && Quiet(cfg, b)
  {
    assert forall i :: i in a || i in b ==> i in a + b;
  }

  /** After each of the instructions but the last, the machine has not raised and tracing is on. */
  ghost predicate TracedThroughout(cfg: Config, s: State, stream: seq<Instr>) {
    forall k :: 0 < k < |stream| ==> TracedAt(cfg, s, stream, k)
  }

  predicate TracedAt(cfg: Config, s: State, stream: seq<Instr>, k: nat)
    requires k <= |stream|
  {
    Run(cfg, s, stream[..k]).Success? && Run(cfg, s, stream[..k]).value.active
  }

  lemma RunPrefix(cfg: Config, s: State, stream: seq<Instr>, k: nat)
    requires k < |stream|
    ensures Run(cfg, s, stream[..k + 1]) ==
      match Run(cfg, s, stream[..k]) case Success(t) => Step(cfg, t, stream[k]) case Failure(e) => Failure(e)
  {
    assert stream[..k + 1] == stream[..k] + [stream[k]];
    RunAppend(cfg, s, stream[..k], [stream[k]]);
    if Run(cfg, s, stream[..k]).Success? {
      RunOne(cfg, Run(cfg, s, stream[..k]).value, stream[k]);
    }
  }

  lemma StepKeepsTracing(cfg: Config, s: State, i: Instr)
    requires s.active || cfg.target == Some(LookupSym(cfg.syms, i.pc))
    ensures Step(cfg, s, i).Success? ==> (Step(cfg, s, i).value.active <==> !Switches(cfg, i))
  {
  }

  lemma {:induction false} QuietIsTraced(cfg: Config, s: State, stream: seq<Instr>, k: nat)
    requires 0 < k <= |stream| && Quiet(cfg, stream[..k]) && Run(cfg, s, stream).Success?
    requires s.active || cfg.target == Some(LookupSym(cfg.syms, stream[0].pc))
    ensures TracedAt(cfg, s, stream, k)
    decreases k
  {
    PrefixSucceeds(cfg, s, stream, k);
    PrefixSucceeds(cfg, s, stream, k - 1);
    if k > 1 {
      assert forall i :: i in stream[..k - 1] ==> i in stream[..k];
      QuietIsTraced(cfg, s, stream, k - 1);
    } else {
      assert Run(cfg, s, stream[..0]) == Success(s);
    }
    assert stream[k - 1] in stream[..k];
    TracedOneMore(cfg, s, stream, k - 1);
  }

  lemma TracedOneMore(cfg: Config, s: State, stream: seq<Instr>, k: nat)
    requires k < |stream| && Run(cfg, s, stream[..k]).Success? && Run(cfg, s, stream[..k + 1]).Success?
    requires Run(cfg, s, stream[..k]).value.active || cfg.target == Some(LookupSym(cfg.syms, stream[k].pc))
    requires !Switches(cfg, stream[k])
    ensures TracedAt(cfg, s, stream, k + 1)
  {
    RunPrefix(cfg, s, stream, k);
    StepKeepsTracing(cfg, Run(cfg, s, stream[..k]).value, stream[k]);
  }

  lemma PrefixSucceeds(cfg: Config, s: State, stream: seq<Instr>, k: nat)
    requires k <= |stream| && Run(cfg, s, stream).Success?
    ensures Run(cfg, s, stream[..k]).Success?
  {
    assert stream == stream[..k] + stream[k..];
    RunAppend(cfg, s, stream[..k], stream[k..]);
  }

  lemma LoudIsNotTraced(cfg: Config, s: State, stream: seq<Instr>, k: nat)
    requires k < |stream| && Switches(cfg, stream[k])
    ensures !TracedAt(cfg, s, stream, k + 1)
  {
    RunPrefix(cfg, s, stream, k);
    if Run(cfg, s, stream[..k]).Success? {
      StepKeepsTracing(cfg, Run(cfg, s, stream[..k]).value, stream[k]);
    }
  }

  /**
   * From an idle machine, a run of the target is traced from its first to its last instruction without an error if
   * and only if no return of the target comes before the last instruction and no edge stays within one symbol.
   */
  lemma {:induction false} TracedExactly(cfg: Config, s: State, a: Activation)
    requires Idle(s) && Shaped(cfg, a) && cfg.target == Some(a.fn)
    ensures Run(cfg, s, Flatten(a)).Success? && TracedThroughout(cfg, s, Flatten(a))
      <==> TracedToEnd(cfg, a) && SelfEdges(a) == 0
  {
    var stream, before := Flatten(a), BeforeLast(a);
    var w := Woken(s);
    FlattenStartsWithFirst(a);
    SplitLast(cfg, a);
    QuietActivation(cfg, a);
    WakeIsEnter(cfg, s, a);
    if TracedToEnd(cfg, a) {
      InvertsExactly(cfg, w, a);
      if SelfEdges(a) != 0 && Run(cfg, s, stream).Success? {
        CountActivation(cfg, w, a, Run(cfg, s, stream).value);
      }
      if SelfEdges(a) == 0 {
        forall k | 0 < k < |stream|
          ensures TracedAt(cfg, s, stream, k)
        {
          assert forall i :: i in stream[..k] ==> i in before;
          QuietIsTraced(cfg, s, stream, k);
        }
      }
    } else {
      var i :| i in before && Switches(cfg, i);
      var k :| 0 <= k < |before| && before[k] == i;
      LoudIsNotTraced(cfg, s, stream, k);
    }
  }

  // An activation whose first instruction is a call, or is already the return.

  lemma EnterByCall(cfg: Config, s: State, fn: string, i: Instr)
    requires s.active && Entering(s, fn) && Is(cfg, i, fn, Call)
    ensures Run(cfg, s, [i]) == Success(Called(s, fn, i).(callStarts := s.callStarts + [i]))
  {
    RunOne(cfg, s, i);
    assert Resolve(cfg, i) == i;
  }

  lemma EnterByReturn(cfg: Config, s: State, fn: string, i: Instr)
    requires s.active && Entering(s, fn) && Is(cfg, i, fn, Return)
    ensures Run(cfg, s, [i]) == Success(s.(
      events := s.events + [CloseEvent(s.callStack, i, i)], callStack := Pop(s.callStack),
      prevFn := Some(fn), prevCat := Return, active := cfg.target != Some(fn)))
  {
    RunOne(cfg, s, i);
    assert Resolve(cfg, i) == i;
    assert Pop(s.callStarts + [i]) == s.callStarts;
  }

  lemma RunAsleep(cfg: Config, s: State, fn: string, i: Instr, cat: Cat)
    requires !s.active && Is(cfg, i, fn, cat)
    ensures Run(cfg, s, [i])
      == if cfg.target == Some(fn) then Run(cfg, Woken(s), [i]) else Success(s.(prevCat := Plain))
  {
    RunOne(cfg, s, i);
    RunOne(cfg, Woken(s), i);
    assert Resolve(cfg, i) == i;
  }

  /** The smallest re-entry: the target calls `g`, which calls the target. */
  function Reentry(f: string, g: string, site: Instr, exit: Instr, back: Instr, end: Instr, inner: Instr): Activation {
    Returns(f, CallSite(site, Returns(g, CallSite(back, Returns(f, End, inner), End), end), End), exit)
  }

  lemma ReentryShape(
    cfg: Config, f: string, g: string, site: Instr, exit: Instr, back: Instr, end: Instr, inner: Instr)
    requires Shaped(cfg, Reentry(f, g, site, exit, back, end, inner))
    ensures Is(cfg, site, f, Call) && Is(cfg, back, g, Call) && Is(cfg, inner, f, Return)
    ensures Is(cfg, end, g, Return) && Is(cfg, exit, f, Return)
    ensures Flatten(Reentry(f, g, site, exit, back, end, inner)) == [site] + [back] + [inner] + [end] + [exit]
  {
    var a := Reentry(f, g, site, exit, back, end, inner);
    var callee := a.body.callee;
    assert ShapedBody(cfg, f, a.body) && Shaped(cfg, callee);
    assert ShapedBody(cfg, g, callee.body) && Shaped(cfg, callee.body.callee);
    assert Flatten(callee.body.callee) == FlattenBody(End) + [inner] && FlattenBody(End) == [];
    assert FlattenBody(callee.body) == [back] + Flatten(callee.body.callee) + FlattenBody(End);
    assert Flatten(callee) == [back] + [inner] + [end];
  }

  /**
   * Re-entry goes wrong without an error: of three activations two are recorded, the outer one from its last
   * instruction on, and two starts are never closed.
   */
  lemma ReentryLosesCaller(
    cfg: Config, s: State, f: string, g: string, site: Instr, exit: Instr, back: Instr, end: Instr, inner: Instr)
    requires Idle(s) && f != g && cfg.target == Some(f) && Shaped(cfg, Reentry(f, g, site, exit, back, end, inner))
    ensures var run := Run(cfg, s, Flatten(Reentry(f, g, site, exit, back, end, inner)));
      && run.Success? && !run.value.active && run.value.callStarts == [site, back]
      && run.value.events == s.events + [CloseEvent([site, back], inner, inner)] + [CloseEvent([site], exit, exit)]
  {
    ReentryShape(cfg, f, g, site, exit, back, end, inner);
    var t1 := Called(Woken(s), f, site).(callStarts := [site]);
    RunAsleep(cfg, s, f, site, Call);
    EnterByCall(cfg, Woken(s), f, site);
    var t2 := Called(t1, g, back).(callStarts := [site] + [back]);
    EnterByCall(cfg, t1, g, back);
    EnterByReturn(cfg, t2, f, inner);
    var t3 := Run(cfg, t2, [inner]).value;
    RunAsleep(cfg, t3, g, end, Return);
    var t4 := t3.(prevCat := Plain);
    RunAsleep(cfg, t4, f, exit, Return);
    EnterByReturn(cfg, Woken(t4), f, exit);
    var t5 := Run(cfg, t4, [exit]).value;
    Chain(cfg, s, [site], t1, [back], t2);
    Chain(cfg, s, [site] + [back], t2, [inner], t3);
    Chain(cfg, s, [site] + [back] + [inner], t3, [end], t4);
    Chain(cfg, s, [site] + [back] + [inner] + [end], t4, [exit], t5);
    assert t2.callStack == [site, back] && t3.callStack == [site];
  }
}
