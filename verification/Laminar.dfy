/** On every stream with non-decreasing cycles the emitted events form a laminar family of intervals. */
module Laminar {
  import opened Wrappers
  import opened Instructions
  import opened TraceMachine

  ghost predicate NonDecreasing(stream: seq<Instr>) {
    forall i, j :: 0 <= i <= j < |stream| ==> stream[i].cycle <= stream[j].cycle
  }

  /** The later-completed `f` either began after `e` ended or encloses `e`. */
  predicate NestedOrAfter(e: Event, f: Event) {
    e.End() <= f.ts || (f.ts <= e.ts && e.End() <= f.End())
  }

  ghost predicate IsLaminar(events: seq<Event>) {
    && (forall i :: 0 <= i < |events| ==> 0 <= events[i].dur)
    && (forall i, j :: 0 <= i < j < |events| ==> NestedOrAfter(events[i], events[j]))
  }

  /** The open starts are ordered and not in the future; each closed event lies wholly on one side of each. */
  ghost predicate OpenStarts(events: seq<Event>, starts: seq<Instr>, now: int) {
    && (forall i, j :: 0 <= i < j < |starts| ==> starts[i].cycle <= starts[j].cycle)
    && (forall i :: 0 <= i < |starts| ==> starts[i].cycle <= now)
    && (forall i :: 0 <= i < |events| ==> events[i].End() <= now)
    && (forall i, k :: 0 <= i < |events| && 0 <= k < |starts| ==>
          events[i].End() <= starts[k].cycle || starts[k].cycle <= events[i].ts)
  }

  ghost predicate Inv(s: State, now: int) {
    IsLaminar(s.events) && OpenStarts(s.events, s.callStarts, now)
  }

  lemma PushKeeps(events: seq<Event>, starts: seq<Instr>, now: int, i: Instr)
    requires OpenStarts(events, starts, now) && now <= i.cycle
    ensures OpenStarts(events, starts, i.cycle) && OpenStarts(events, starts + [i], i.cycle)
  {
  }

  lemma {:induction false} CloseKeeps(events: seq<Event>, starts: seq<Instr>, stack: seq<Instr>, i: Instr)
    requires IsLaminar(events) && OpenStarts(events, starts, i.cycle) && starts != []
    ensures var closed := events + [CloseEvent(stack, starts[|starts| - 1], i)];
      IsLaminar(closed) && OpenStarts(closed, Pop(starts), i.cycle)
  {
    var e := CloseEvent(stack, starts[|starts| - 1], i);
    var closed := events + [e];
    forall k | 0 <= k < |events|
      ensures NestedOrAfter(closed[k], e)
    {
      assert events[k].End() <= starts[|starts| - 1].cycle || starts[|starts| - 1].cycle <= events[k].ts;
    }
  }

  lemma ApplyKeeps(cfg: Config, s: State, i: Instr, cat: Cat, now: int)
    requires Inv(s, now) && now <= i.cycle && Apply(cfg, s, i, cat).Success?
    ensures Inv(Apply(cfg, s, i, cat).value, i.cycle)
  {
    PushKeeps(s.events, s.callStarts, now, i);
    if cat in {Tail, Return} {
      CloseKeeps(s.events, StartsFor(s, i), s.callStack, i);
    }
  }

  lemma StepKeeps(cfg: Config, s: State, i: Instr, now: int)
    requires Inv(s, now) && now <= i.cycle && Step(cfg, s, i).Success?
    ensures Inv(Step(cfg, s, i).value, i.cycle)
  {
    var resolved := Resolve(cfg, i);
    if s.active {
      ApplyKeeps(cfg, s, resolved, Classify(resolved, cfg.syms).value, now);
    } else if cfg.target == Some(resolved.fn) {
      var woken := s.(active := true, prevFn := None, prevCat := Call);
      ApplyKeeps(cfg, woken, resolved, Classify(resolved, cfg.syms).value, now);
    }
  }

  lemma {:induction false} RunKeeps(cfg: Config, s: State, stream: seq<Instr>, now: int)
    requires Inv(s, now) && NonDecreasing(stream) && (stream != [] ==> now <= stream[0].cycle)
    requires Run(cfg, s, stream).Success?
    ensures IsLaminar(Run(cfg, s, stream).value.events)
    decreases |stream|
  {
    if stream != [] {
      StepKeeps(cfg, s, stream[0], now);
      RunKeeps(cfg, Step(cfg, s, stream[0]).value, stream[1..], stream[0].cycle);
    }
  }

  /**
   * Whatever the symbols, the target and the debug flag, a run that raises nothing emits events of
   * non-negative duration, any two of which are nested or disjoint, in order of completion.
   */
  lemma {:induction false} TraceIsLaminar(cfg: Config, stream: seq<Instr>)
    requires NonDecreasing(stream) && Run(cfg, Init(cfg), stream).Success?
    ensures IsLaminar(Run(cfg, Init(cfg), stream).value.events)
  {
    RunKeeps(cfg, Init(cfg), stream, if stream == [] then 0 else stream[0].cycle);
  }
}
