/** The two-stack machine that turns retired instructions into Chrome "complete" events (`TraceGen`). */
module TraceMachine {
  import opened Wrappers
  import opened Symbols
  import opened Instructions

  datatype Event = Event(
    name: string, ts: int, dur: int, pid: int, tid: int,
    callStack: string, fnAddr: int, callerAddr: int)
  {
    function End(): int {
      ts + dur
    }
  }

  datatype Config = Config(syms: seq<Sym>, target: Option<string>, debug: bool)

  /** `prev_instr` is read for its category only, so `prevCat` stands for it. */
  datatype State = State(
    events: seq<Event>, callStack: seq<Instr>, callStarts: seq<Instr>,
    prevFn: Option<string>, prevCat: Cat, active: bool)

  function Init(cfg: Config): State {
    State([], [], [], None, Plain, cfg.target.None?)
  }

  /** `"/".join(names)` */
  function JoinSlash(names: seq<string>): string {
    if |names| == 0 then ""
    else if |names| == 1 then names[0]
    else names[0] + "/" + JoinSlash(names[1..])
  }

  function StackNames(stack: seq<Instr>): (names: seq<string>)
    ensures |names| == |stack|
    ensures forall k :: 0 <= k < |stack| ==> names[k] == stack[k].fn
  {
    seq(|stack|, k requires 0 <= k < |stack| => stack[k].fn)
  }

  function Pop<T>(s: seq<T>): seq<T> {
    if s == [] then [] else s[..|s| - 1]
  }

  /** The event of an activation that began with `start` and ends with `exit` under call sites `stack`. */
  function CloseEvent(stack: seq<Instr>, start: Instr, exit: Instr): Event {
    Event(exit.fn, start.cycle, exit.cycle - start.cycle, exit.pid, exit.tid,
          JoinSlash(StackNames(stack)), start.pc,
          if stack == [] then -1 else stack[|stack| - 1].pc)
  }

  predicate Entering(s: State, fn: string) {
    s.prevFn != Some(fn) && s.prevCat in {Call, Tail}
  }

  function StartsFor(s: State, i: Instr): seq<Instr> {
    if Entering(s, i.fn) then s.callStarts + [i] else s.callStarts
  }

  /** A plain instruction in a new function without a call before it, or still in the caller after one. */
  predicate Suspicious(s: State, fn: string) {
    || (s.prevFn != Some(fn) && s.prevCat == Plain)
    || (s.prevFn == Some(fn) && s.prevCat in {Call, Tail} && fn != NOSYM)
  }

  /** The branch of `process_instr` for an instruction of category `cat`. */
  function Apply(cfg: Config, s: State, i: Instr, cat: Cat): Result<State, Error> {
    var starts := StartsFor(s, i);
    var t := s.(callStarts := starts, prevFn := Some(i.fn), prevCat := cat);
    match cat
    case Call =>
      Success(t.(callStack := s.callStack + [i]))
    case Tail =>
      if starts == [] then Failure(AssertionError)
      else Success(t.(
        events := s.events + [CloseEvent(s.callStack, starts[|starts| - 1], i)],
        callStarts := Pop(starts)))
    case Return =>
      if starts == [] then Failure(AssertionError)
      else Success(t.(
        events := s.events + [CloseEvent(s.callStack, starts[|starts| - 1], i)],
        callStarts := Pop(starts),
        callStack := Pop(s.callStack),
        active := s.active && cfg.target != Some(i.fn)))
    case Plain =>
      if !cfg.debug && Suspicious(s, i.fn) then Failure(RuntimeError) else Success(t)
  }

  /**
   * A plain instruction is accepted after a return, behind another instruction of its function, and as the first of
   * another function behind a call; behind a call in its own function only outside all symbols. The debug flag
   * accepts it anywhere.
   */
  lemma PlainAcceptedExactly(cfg: Config, s: State, i: Instr)
    ensures Apply(cfg, s, i, Plain).Success? <==>
      || cfg.debug || s.prevCat == Return
      || (s.prevCat == Plain && s.prevFn == Some(i.fn))
      || (s.prevCat in {Call, Tail} && (s.prevFn != Some(i.fn) || i.fn == "nosym"))
    ensures Apply(cfg, s, i, Plain).Failure? ==> Apply(cfg, s, i, Plain).error == RuntimeError
  {
  }

  /** `process_instr` as a function of the state; `i.fn` is the symbol that contains the instruction. */
  function Process(cfg: Config, s: State, i: Instr): Result<State, Error> {
    var cat :- Classify(i, cfg.syms);
    Apply(cfg, s, i, cat)
  }

  function Resolve(cfg: Config, i: Instr): Instr {
    i.(fn := LookupSym(cfg.syms, i.pc))
  }

  /** One iteration of `run_trace`. */
  function Step(cfg: Config, s: State, raw: Instr): Result<State, Error> {
    var i := Resolve(cfg, raw);
    if s.active then Process(cfg, s, i)
    else if cfg.target == Some(i.fn) then Process(cfg, s.(active := true, prevFn := None, prevCat := Call), i)
    else Success(s.(prevCat := Plain))
  }

  function Run(cfg: Config, s: State, stream: seq<Instr>): Result<State, Error>
    decreases |stream|
  {
    if stream == [] then Success(s)
    else
      var t :- Step(cfg, s, stream[0]);
      Run(cfg, t, stream[1..])
  }

  /** Running two streams one after the other is running their concatenation. */
  lemma {:induction false} RunAppend(cfg: Config, s: State, a: seq<Instr>, b: seq<Instr>)
    ensures Run(cfg, s, a + b) == match Run(cfg, s, a) case Success(t) => Run(cfg, t, b) case Failure(e) => Failure(e)
    decreases |a|
  {
    if a == [] {
      assert a + b == b;
    } else {
      assert (a + b)[1..] == a[1..] + b;
      match Step(cfg, s, a[0])
      case Success(t) => RunAppend(cfg, t, a[1..], b);
      case Failure(_) =>
    }
  }

  lemma RunOne(cfg: Config, s: State, i: Instr)
    ensures Run(cfg, s, [i]) == Step(cfg, s, i)
  {
    match Step(cfg, s, i)
    case Success(t) => assert Run(cfg, t, [i][1..]) == Success(t);
    case Failure(_) =>
  }

  // ---- The imperative form ----

  class TraceGen {
    const cfg: Config
    const skipFns: seq<string>
    var events: seq<Event>
    var callStack: seq<Instr>
    var callStarts: seq<Instr>
    var prevFn: Option<string>
    var prevCat: Cat
    var traceActive: bool

    ghost function Abstract(): State
      reads this
    {
      State(events, callStack, callStarts, prevFn, prevCat, traceActive)
    }

    constructor (cfg: Config, skipFns: seq<string>)
      ensures this.cfg == cfg && this.skipFns == skipFns && Abstract() == Init(cfg)
    {
      this.cfg, this.skipFns := cfg, skipFns;
      events, callStack, callStarts := [], [], [];
      prevFn, prevCat, traceActive := None, Plain, cfg.target.None?;
    }

    /** The part shared by tail calls and returns: pop the start and emit the event. */
    method CloseActivation(i: Instr) returns (error: Option<Error>)
      modifies this`events, this`callStarts
      ensures error == if old(callStarts) == [] then Some(AssertionError) else None
      ensures error.Some? ==> unchanged(this)
      ensures error.None? ==>
        && events == old(events) + [CloseEvent(callStack, old(callStarts)[|old(callStarts)| - 1], i)]
        && callStarts == Pop(old(callStarts))
    {
      if callStarts == [] {
        return Some(AssertionError);
      }
      var start := callStarts[|callStarts| - 1];
      callStarts := callStarts[..|callStarts| - 1];
      events := events + [CloseEvent(callStack, start, i)];
      return None;
    }

    method PushStart(i: Instr)
      modifies `callStarts
      ensures callStarts == StartsFor(old(Abstract()), i)
    {
      if prevFn != Some(i.fn) && (prevCat == Call || prevCat == Tail) {
        callStarts := callStarts + [i];
      }
    }

    /** A return also pops the call site and may switch tracing off. */
    method ReturnFrom(i: Instr) returns (error: Option<Error>)
      modifies `events, `callStarts, `callStack, `traceActive
      ensures error == if old(callStarts) == [] then Some(AssertionError) else None
      ensures error.Some? ==> unchanged(this)
      ensures error.None? ==>
        && events == old(events) + [CloseEvent(old(callStack), old(callStarts)[|old(callStarts)| - 1], i)]
        && callStarts == Pop(old(callStarts)) && callStack == Pop(old(callStack))
        && traceActive == (old(traceActive) && cfg.target != Some(i.fn))
    {
      error := CloseActivation(i);
      if error.Some? {
        return;
      }
      if callStack != [] {
        callStack := callStack[..|callStack| - 1];
      }
      if cfg.target == Some(i.fn) {
        traceActive := false;
      }
    }

    method CheckPlain(i: Instr) returns (error: Option<Error>)
      ensures error == if !cfg.debug && Suspicious(Abstract(), i.fn) then Some(RuntimeError) else None
    {
      if !cfg.debug {
        if prevFn != Some(i.fn) && prevCat == Plain {
          return Some(RuntimeError);
        } else if (prevCat == Call || prevCat == Tail) && prevFn == Some(i.fn) && i.fn != NOSYM {
          return Some(RuntimeError);
        }
      }
      return None;
    }

    method ApplyCat(i: Instr, cat: Cat) returns (error: Option<Error>)
      modifies this
      ensures match Apply(cfg, old(Abstract()), i, cat)
        case Success(t) => error == None && Abstract() == t
        case Failure(e) => error == Some(e) && events == old(events)
    {
      error := None;
      PushStart(i);
      match cat {
        case Call => callStack := callStack + [i];
        case Tail => error := CloseActivation(i);
        case Return => error := ReturnFrom(i);
        case Plain => error := CheckPlain(i);
      }
      if error.None? {
        prevCat := cat;
        prevFn := Some(i.fn);
      }
    }

    method ProcessInstr(i: Instr) returns (error: Option<Error>)
      modifies this
      ensures match Process(cfg, old(Abstract()), i)
        case Success(t) => error == None && Abstract() == t
        case Failure(e) => error == Some(e) && events == old(events)
    {
      var classified := Classify(i, cfg.syms);
      if classified.Failure? {
        return Some(classified.error);
      }
      error := ApplyCat(i, classified.value);
    }

    /** The loop over the retire log computes `Run`. */
    method RunTrace(stream: seq<Instr>) returns (error: Option<Error>)
      modifies this
      ensures match Run(cfg, old(Abstract()), stream)
        case Success(t) => error == None && Abstract() == t
        case Failure(e) => error == Some(e)
    {
      var n := 0;
      while n < |stream|
        invariant n <= |stream|
        invariant Run(cfg, Abstract(), stream[n..]) == Run(cfg, old(Abstract()), stream)
      {
        var i := Resolve(cfg, stream[n]);
        ghost var before := Abstract();
        assert stream[n..][1..] == stream[n + 1..];
        n := n + 1;
        if !traceActive {
          if cfg.target == Some(i.fn) {
            traceActive := true;
            prevFn := None;
            prevCat := Call;
          } else {
            prevCat := Plain;
            continue;
          }
        }
        var failed := ProcessInstr(i);
        if failed.Some? {
          return failed;
        }
      }
      return None;
    }
  }
}
