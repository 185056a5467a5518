/** Lazy loading of models under a per-entry lock (`LlmRegistry.resolve`), as interleaved steps of many calls. */
module LlmRegistry {
  import opened Wrappers

  type CallId = nat
  type Instance = nat

  /** `builds` counts the successful `make_llm` calls for the entry; the code does not keep it. */
  datatype Entry = Entry(llm: Option<Instance>, loaded: bool, lock: Option<CallId>, builds: nat)

  /** Where a call of `resolve` is. Holding to Leaving are inside the `with entry._lock` block. */
  datatype Pc =
    | Waiting(mid: string)
    | Holding(mid: string)
    | Building(mid: string)
    | Built(mid: string, inst: Instance)
    | Assigned(mid: string)
    | Leaving(mid: string)
    | Unlocked(mid: string)
    | Read(mid: string, got: Option<Instance>)
    | Returned(mid: string, got: Option<Instance>, loaded: bool)
    | Raised

  datatype State = State(entries: map<string, Entry>, calls: map<CallId, Pc>, defaultId: string, nextInstance: Instance)

  datatype Event =
    | Call(t: CallId, request: Option<string>)
    | Acquire(t: CallId)
    | Check(t: CallId)
    | BuildSucceeds(t: CallId)
    | BuildFails(t: CallId)
    | Assign(t: CallId)
    | MarkLoaded(t: CallId)
    | Release(t: CallId)
    | ReadLlm(t: CallId)
    | ReadInfo(t: CallId)

  /** The characters that `str.strip` takes away. */
  predicate IsSpace(c: char) {
    var n := c as int;
    || 0x09 <= n <= 0x0D || 0x1C <= n <= 0x20 || n == 0x85 || n == 0xA0 || n == 0x1680 || 0x2000 <= n <= 0x200A
    || n == 0x2028 || n == 0x2029 || n == 0x202F || n == 0x205F || n == 0x3000
  }

  function Strip(s: string): string {
    if s == "" then ""
    else if IsSpace(s[0]) then Strip(s[1..])
    else if IsSpace(s[|s| - 1]) then Strip(s[..|s| - 1])
    else s
  }

  /** `(model_id or "").strip() or self._default_id` */
  function ModelId(s: State, request: Option<string>): string {
    var stripped := if request.None? then "" else Strip(request.value);
    if stripped == "" then s.defaultId else stripped
  }

  predicate Holds(pc: Pc) {
    pc.Holding? || pc.Building? || pc.Built? || pc.Assigned? || pc.Leaving?
  }

  /** The state in which call `t` has moved to `pc` and the entry `mid` has become `e`. */
  function Move(s: State, t: CallId, pc: Pc, mid: string, e: Entry): State {
    s.(calls := s.calls[t := pc], entries := s.entries[mid := e])
  }

  /** One atomic step, or None when the event is not possible. */
  function Apply(s: State, ev: Event): Option<State> {
    var t := ev.t;
    if ev.Call? then
      if t in s.calls then None
      else
        var mid := ModelId(s, ev.request);
        Some(s.(calls := s.calls[t := if mid in s.entries then Waiting(mid) else Raised]))
    else if t !in s.calls || s.calls[t].Raised? || s.calls[t].mid !in s.entries then None
    else
      var pc := s.calls[t];
      var mid := pc.mid;
      var e := s.entries[mid];
      match ev
      case Acquire(_) =>
        if pc.Waiting? && e.lock == None then Some(Move(s, t, Holding(mid), mid, e.(lock := Some(t)))) else None
      case Check(_) =>
        if pc.Holding? then Some(Move(s, t, if e.llm.None? then Building(mid) else Leaving(mid), mid, e)) else None
      case BuildSucceeds(_) =>
        if pc.Building?
        then
          var u := Move(s, t, Built(mid, s.nextInstance), mid, e.(builds := e.builds + 1));
          Some(u.(nextInstance := s.nextInstance + 1))
        else None
      case BuildFails(_) =>
        if pc.Building? then Some(Move(s, t, Raised, mid, e.(lock := None))) else None
      case Assign(_) =>
        if pc.Built? then Some(Move(s, t, Assigned(mid), mid, e.(llm := Some(pc.inst)))) else None
      case MarkLoaded(_) =>
        if pc.Assigned? then Some(Move(s, t, Leaving(mid), mid, e.(loaded := true))) else None
      case Release(_) =>
        if pc.Leaving? then Some(Move(s, t, Unlocked(mid), mid, e.(lock := None))) else None
      case ReadLlm(_) =>
        if pc.Unlocked? then Some(Move(s, t, Read(mid, e.llm), mid, e)) else None
      case ReadInfo(_) =>
        if pc.Read? then Some(Move(s, t, Returned(mid, pc.got, e.loaded), mid, e)) else None
  }

  function Exec(s: State, events: seq<Event>): Option<State>
    decreases |events|
  {
    if events == [] then Some(s)
    else
      match Apply(s, events[0])
      case None => None
      case Some(u) => Exec(u, events[1..])
  }

  predicate Init(s: State) {
    && s.calls == map[] && s.defaultId in s.entries
    && forall mid :: mid in s.entries ==> s.entries[mid] == Entry(None, false, None, 0)
  }

  // ---- The invariant ----

  /** What the position of a call says about its entry. */
  predicate CallOk(e: Entry, t: CallId, pc: Pc) {
    && (Holds(pc) <==> e.lock == Some(t))
    && match pc
       case Building(_) => e.llm.None? && e.builds == 0
       case Built(_, _) => e.llm.None? && e.builds == 1
       case Assigned(_) => e.llm.Some?
       case Leaving(_) => e.llm.Some? && e.loaded
       case Unlocked(_) => e.llm.Some? && e.loaded
       case Read(_, got) => e.llm.Some? && e.loaded && got == e.llm
       case Returned(_, got, loaded) => e.llm.Some? && e.loaded && got == e.llm && loaded
       case _ => true
  }

  /** An entry is untouched, or built and not yet marked, or built and marked; only the lock holder sees the middle. */
  predicate EntryOk(s: State, mid: string)
    requires mid in s.entries
  {
    var e := s.entries[mid];
    && (e.loaded ==> e.llm.Some?)
    && (e.llm.Some? ==> e.builds == 1)
    && (e.lock.Some? ==> e.lock.value in s.calls && Holds(s.calls[e.lock.value]) && s.calls[e.lock.value].mid == mid)
    && (e.llm.Some? && !e.loaded ==> e.lock.Some? && e.lock.value in s.calls && s.calls[e.lock.value].Assigned?)
    && (e.llm.None? && e.builds != 0 ==>
          e.builds == 1 && e.lock.Some? && e.lock.value in s.calls && s.calls[e.lock.value].Built?)
  }

  ghost predicate Inv(s: State) {
    && (forall t :: t in s.calls && !s.calls[t].Raised? ==>
          s.calls[t].mid in s.entries && CallOk(s.entries[s.calls[t].mid], t, s.calls[t]))
    && (forall mid :: mid in s.entries ==> EntryOk(s, mid))
  }

  lemma InitInv(s: State)
    requires Init(s)
    ensures Inv(s)
  {
  }

  /** A step of one call leaves every other call's view of its entry intact. */
  lemma {:induction false} StepKeepsCall(s: State, ev: Event, t: CallId)
    requires Inv(s) && Apply(s, ev).Some?
    requires t in Apply(s, ev).value.calls && !Apply(s, ev).value.calls[t].Raised?
    ensures var u := Apply(s, ev).value;
      u.calls[t].mid in u.entries && CallOk(u.entries[u.calls[t].mid], t, u.calls[t])
  {
    if t in s.calls && !s.calls[t].Raised? {
      assert CallOk(s.entries[s.calls[t].mid], t, s.calls[t]);
      assert EntryOk(s, s.calls[t].mid);
    }
  }

  lemma {:induction false} StepKeepsEntry(s: State, ev: Event, mid: string)
    requires Inv(s) && Apply(s, ev).Some? && mid in Apply(s, ev).value.entries
    ensures EntryOk(Apply(s, ev).value, mid)
  {
    assert EntryOk(s, mid);
    if ev.t in s.calls && !s.calls[ev.t].Raised? {
      assert CallOk(s.entries[s.calls[ev.t].mid], ev.t, s.calls[ev.t]);
    }
  }

  lemma {:induction false} StepKeeps(s: State, ev: Event)
    requires Inv(s) && Apply(s, ev).Some?
    ensures Inv(Apply(s, ev).value)
  {
    var u := Apply(s, ev).value;
    forall t | t in u.calls && !u.calls[t].Raised?
      ensures u.calls[t].mid in u.entries && CallOk(u.entries[u.calls[t].mid], t, u.calls[t])
    {
      StepKeepsCall(s, ev, t);
    }
    forall mid | mid in u.entries
      ensures EntryOk(u, mid)
    {
      StepKeepsEntry(s, ev, mid);
    }
  }

  lemma {:induction false} ExecKeeps(s: State, events: seq<Event>)
    requires Inv(s) && Exec(s, events).Some?
    ensures Inv(Exec(s, events).value)
    decreases |events|
  {
    if events != [] {
      StepKeeps(s, events[0]);
      ExecKeeps(Apply(s, events[0]).value, events[1..]);
    }
  }

  // ---- What follows for every interleaving ----

  /** Each model is built at most once; `loaded` implies that the instance is set; two calls never share a lock. */
  lemma {:induction false} BuiltAtMostOnce(s: State, events: seq<Event>, mid: string)
    requires Init(s) && Exec(s, events).Some? && mid in Exec(s, events).value.entries
    ensures var e := Exec(s, events).value.entries[mid];
      e.builds <= 1 && (e.llm.Some? ==> e.builds == 1) && (e.loaded ==> e.llm.Some?)
  {
    InitInv(s);
    ExecKeeps(s, events);
    assert EntryOk(Exec(s, events).value, mid);
  }

  lemma {:induction false} MutualExclusion(s: State, events: seq<Event>, t: CallId, v: CallId)
    requires Init(s) && Exec(s, events).Some?
    requires var calls := Exec(s, events).value.calls;
      t in calls && v in calls && Holds(calls[t]) && Holds(calls[v]) && calls[t].mid == calls[v].mid
    ensures t == v
  {
    InitInv(s);
    ExecKeeps(s, events);
    var u := Exec(s, events).value;
    assert CallOk(u.entries[u.calls[t].mid], t, u.calls[t]);
    assert CallOk(u.entries[u.calls[v].mid], v, u.calls[v]);
  }

  /** All calls that return for one model return the same instance, and see it marked as loaded. */
  lemma {:induction false} SameInstance(s: State, events: seq<Event>, t: CallId, v: CallId)
    requires Init(s) && Exec(s, events).Some?
    requires var calls := Exec(s, events).value.calls;
      t in calls && v in calls && calls[t].Returned? && calls[v].Returned? && calls[t].mid == calls[v].mid
    ensures var calls := Exec(s, events).value.calls;
      calls[t].got.Some? && calls[t].got == calls[v].got && calls[t].loaded
  {
    InitInv(s);
    ExecKeeps(s, events);
    var u := Exec(s, events).value;
    assert CallOk(u.entries[u.calls[t].mid], t, u.calls[t]);
    assert CallOk(u.entries[u.calls[v].mid], v, u.calls[v]);
  }

  /** A failed build leaves the entry as if it had never been tried: any waiting call can enter and build. */
  lemma {:induction false} FailedBuildIsRetriable(s: State, t: CallId, v: CallId)
    requires Inv(s) && Apply(s, BuildFails(t)).Some?
    requires v != t && v in s.calls && s.calls[v].Waiting? && s.calls[v].mid == s.calls[t].mid
    ensures var u := Apply(s, BuildFails(t)).value;
      && u.entries[s.calls[t].mid] == Entry(None, false, None, 0)
      && Exec(u, [Acquire(v), Check(v)]).Some?
      && v in Exec(u, [Acquire(v), Check(v)]).value.calls
      && Exec(u, [Acquire(v), Check(v)]).value.calls[v] == Building(s.calls[t].mid)
  {
    var mid := s.calls[t].mid;
    assert EntryOk(s, mid) && CallOk(s.entries[mid], t, s.calls[t]);
    var u := Apply(s, BuildFails(t)).value;
    var w := Apply(u, Acquire(v)).value;
    assert [Acquire(v), Check(v)][1..] == [Check(v)] && [Check(v)][1..] == [];
    assert Exec(w, [Check(v)]) == Apply(w, Check(v)) by {
      assert Exec(Apply(w, Check(v)).value, []) == Some(Apply(w, Check(v)).value);
    }
  }

  /** Once set, the instance of a model never changes. */
  lemma {:induction false} InstanceIsStable(s: State, events: seq<Event>, mid: string)
    requires Inv(s) && Exec(s, events).Some? && mid in s.entries && s.entries[mid].llm.Some?
    ensures mid in Exec(s, events).value.entries && Exec(s, events).value.entries[mid].llm == s.entries[mid].llm
    decreases |events|
  {
    if events != [] {
      StepKeeps(s, events[0]);
      assert EntryOk(s, mid);
      InstanceIsStable(Apply(s, events[0]).value, events[1..], mid);
    }
  }

  // ---- No two models share an instance ----

  /** The instance has been built for the entry, and is in it or about to be put there. */
  ghost predicate Owns(s: State, mid: string, inst: Instance) {
    || (mid in s.entries && s.entries[mid].llm == Some(inst))
    || (exists t :: t in s.calls && s.calls[t] == Built(mid, inst))
  }

  ghost predicate OneOwner(s: State) {
    && (forall mid, inst: Instance :: Owns(s, mid, inst) ==> inst < s.nextInstance)
    && (forall m, n, inst: Instance :: Owns(s, m, inst) && Owns(s, n, inst) ==> m == n)
  }

  lemma {:induction false} StepOwns(s: State, ev: Event, mid: string, inst: Instance)
    requires Apply(s, ev).Some? && Owns(Apply(s, ev).value, mid, inst)
    ensures Owns(s, mid, inst) || (inst == s.nextInstance < Apply(s, ev).value.nextInstance
      && ev.BuildSucceeds? && ev.t in s.calls && s.calls[ev.t] == Building(mid))
    ensures s.nextInstance <= Apply(s, ev).value.nextInstance
  {
    var u := Apply(s, ev).value;
    if t :| t in u.calls && u.calls[t] == Built(mid, inst) {
      assert t != ev.t ==> t in s.calls && s.calls[t] == Built(mid, inst);
    } else {
      assert ev.Assign? && s.calls[ev.t].mid == mid && s.calls[ev.t].Built? ==>
        s.calls[ev.t] == Built(mid, s.calls[ev.t].inst);
    }
  }

  lemma {:induction false} ExecKeepsOwners(s: State, events: seq<Event>)
    requires OneOwner(s) && Exec(s, events).Some?
    ensures OneOwner(Exec(s, events).value)
    decreases |events|
  {
    if events != [] {
      var u := Apply(s, events[0]).value;
      forall mid, inst: Instance | Owns(u, mid, inst)
        ensures inst < u.nextInstance
      {
        StepOwns(s, events[0], mid, inst);
      }
      forall m, n, inst: Instance | Owns(u, m, inst) && Owns(u, n, inst)
        ensures m == n
      {
        StepOwns(s, events[0], m, inst);
        StepOwns(s, events[0], n, inst);
      }
      ExecKeepsOwners(u, events[1..]);
    }
  }

  /** In every interleaving, different models have different instances. */
  lemma {:induction false} InstancesDiffer(s: State, events: seq<Event>, m: string, n: string)
    requires Init(s) && Exec(s, events).Some? && m != n
    requires var e := Exec(s, events).value.entries; m in e && n in e && e[m].llm.Some? && e[n].llm.Some?
    ensures Exec(s, events).value.entries[m].llm != Exec(s, events).value.entries[n].llm
  {
    ExecKeepsOwners(s, events);
    var u := Exec(s, events).value;
    assert Owns(u, m, u.entries[m].llm.value) && Owns(u, n, u.entries[n].llm.value);
  }

  // ---- Which model a call asks for ----

  predicate AllSpace(s: string) {
    forall i :: 0 <= i < |s| ==> IsSpace(s[i])
  }

  /** Text without white space at its ends. */
  predicate Trimmed(m: string) {
    m != "" && !IsSpace(m[0]) && !IsSpace(m[|m| - 1])
  }

  /** Nothing but white space asks for the default; anything else asks for what is between the white space. */
  ghost predicate Asks(defaultId: string, request: Option<string>, mid: string) {
    || ((request.None? || AllSpace(request.value)) && mid == defaultId)
    || (request.Some? && Trimmed(mid) && Surrounds(request.value, mid))
  }

  ghost predicate Surrounds(s: string, m: string) {
    exists a, b :: AllSpace(a) && AllSpace(b) && s == a + m + b
  }

  lemma {:induction false} StripSpace(s: string)
    requires AllSpace(s)
    ensures Strip(s) == ""
  {
    if s != "" {
      StripSpace(s[1..]);
    }
  }

  lemma {:induction false} StripSurrounded(a: string, m: string, b: string)
    requires AllSpace(a) && AllSpace(b) && Trimmed(m)
    ensures Strip(a + m + b) == m
    decreases |a| + |b|
  {
    var s := a + m + b;
    if a != "" {
      assert s[0] == a[0] && s[1..] == a[1..] + m + b;
      StripSurrounded(a[1..], m, b);
    } else if b != "" {
      assert s[0] == m[0] && s[|s| - 1] == b[|b| - 1] && s[..|s| - 1] == a + m + b[..|b| - 1];
      StripSurrounded(a, m, b[..|b| - 1]);
    } else {
      assert s == m;
    }
  }

  lemma MoreBefore(c: char, s: string, m: string)
    requires IsSpace(c) && Surrounds(s, m)
    ensures Surrounds([c] + s, m)
  {
    var a, b :| AllSpace(a) && AllSpace(b) && s == a + m + b;
    assert AllSpace([c] + a) && [c] + s == ([c] + a) + m + b;
  }

  lemma MoreAfter(s: string, c: char, m: string)
    requires IsSpace(c) && Surrounds(s, m)
    ensures Surrounds(s + [c], m)
  {
    var a, b :| AllSpace(a) && AllSpace(b) && s == a + m + b;
    assert AllSpace(b + [c]) && s + [c] == a + m + (b + [c]);
  }

  /** Every text is all white space, or white space around what `Strip` leaves. */
  lemma {:induction false} StripTrims(s: string)
    ensures if AllSpace(s) then Strip(s) == "" else Trimmed(Strip(s)) && Surrounds(s, Strip(s))
    decreases |s|
  {
    if AllSpace(s) {
      StripSpace(s);
    } else if IsSpace(s[0]) {
      assert s == [s[0]] + s[1..];
      StripTrims(s[1..]);
      MoreBefore(s[0], s[1..], Strip(s));
    } else if IsSpace(s[|s| - 1]) {
      var init, last := s[..|s| - 1], s[|s| - 1];
      assert s == init + [last];
      StripTrims(init);
      MoreAfter(init, last, Strip(s));
    } else {
      assert AllSpace("") && s == "" + s + "";
    }
  }

  /** Every request asks for exactly one model, and that is the one the code looks up. */
  lemma ModelIdExactly(s: State, request: Option<string>, mid: string)
    ensures Asks(s.defaultId, request, mid) <==> mid == ModelId(s, request)
  {
    if request.Some? {
      StripTrims(request.value);
      if Trimmed(mid) && Surrounds(request.value, mid) {
        var a, b :| AllSpace(a) && AllSpace(b) && request.value == a + mid + b;
        StripSurrounded(a, mid, b);
        assert request.value[|a|] == mid[0];
      }
    }
  }

  /** A call keeps its model until it raises, which it does only when its build fails; the models never change. */
  lemma StepKeepsModel(s: State, ev: Event, t: CallId)
    requires Apply(s, ev).Some? && t in s.calls
    ensures Apply(s, ev).value.calls[t].Raised? ==> s.calls[t].Raised? || ev == BuildFails(t)
    ensures var u := Apply(s, ev).value;
      && u.entries.Keys == s.entries.Keys && u.defaultId == s.defaultId
      && t in u.calls && (s.calls[t].Raised? ==> u.calls[t].Raised?)
      && (u.calls[t].Raised? || (!s.calls[t].Raised? && u.calls[t].mid == s.calls[t].mid))
  {
  }

  lemma {:induction false} ExecKeepsModel(s: State, events: seq<Event>, t: CallId)
    requires Exec(s, events).Some? && t in s.calls
    ensures t in Exec(s, events).value.calls
    ensures Exec(s, events).value.calls[t].Raised? ==> s.calls[t].Raised? || BuildFails(t) in events
    ensures var u := Exec(s, events).value;
      && t in u.calls && (s.calls[t].Raised? ==> u.calls[t].Raised?)
      && (u.calls[t].Raised? || (!s.calls[t].Raised? && u.calls[t].mid == s.calls[t].mid))
    decreases |events|
  {
    if events != [] {
      StepKeepsModel(s, events[0], t);
      ExecKeepsModel(Apply(s, events[0]).value, events[1..], t);
    }
  }

  lemma {:induction false} ExecKeepsNames(s: State, events: seq<Event>)
    requires Exec(s, events).Some?
    ensures Exec(s, events).value.entries.Keys == s.entries.Keys && Exec(s, events).value.defaultId == s.defaultId
    decreases |events|
  {
    if events != [] {
      ExecKeepsNames(Apply(s, events[0]).value, events[1..]);
    }
  }

  lemma {:induction false} ExecAppend(s: State, a: seq<Event>, b: seq<Event>)
    ensures Exec(s, a + b) == match Exec(s, a) case None => None case Some(u) => Exec(u, b)
    decreases |a|
  {
    if a == [] {
      assert a + b == b;
    } else {
      assert (a + b)[0] == a[0] && (a + b)[1..] == a[1..] + b;
      if Apply(s, a[0]).Some? {
        ExecAppend(Apply(s, a[0]).value, a[1..], b);
      }
    }
  }

  /**
   * Over every run: a call for `mid` waits for that entry at first, or raises when there is none; from then on it
   * stays with it unless its build fails, and if it returns it returns the instance that is in that entry.
   */
  lemma {:induction false} ServesWhatIsAsked(
    s: State, before: seq<Event>, t: CallId, request: Option<string>, after: seq<Event>, mid: string)
    requires Init(s) && Exec(s, before + [Call(t, request)] + after).Some? && Asks(s.defaultId, request, mid)
    ensures Exec(s, before + [Call(t, request)]).Some?
    ensures var u := Exec(s, before + [Call(t, request)]).value;
      t in u.calls && u.calls[t] == if mid in s.entries then Waiting(mid) else Raised
    ensures var v := Exec(s, before + [Call(t, request)] + after).value;
      && t in v.calls && (v.calls[t].Raised? ==> mid !in s.entries || BuildFails(t) in after)
      && (v.calls[t].Raised? || (mid in v.entries && v.calls[t].mid == mid))
      && (v.calls[t].Returned? ==> v.calls[t].got.Some? && v.calls[t].got == v.entries[mid].llm)
  {
    var call := [Call(t, request)];
    ExecAppend(s, before + call, after);
    ExecAppend(s, before, call);
    var w := Exec(s, before).value;
    ExecKeepsNames(s, before);
    ModelIdExactly(w, request, mid);
    assert call[1..] == [];
    var u := Apply(w, call[0]).value;
    assert Exec(w, call) == Exec(u, []) == Some(u);
    ExecKeepsNames(u, after);
    ExecKeepsModel(u, after, t);
    InitInv(s);
    ExecKeeps(s, before + call + after);
    var v := Exec(s, before + call + after).value;
    if !v.calls[t].Raised? {
      assert CallOk(v.entries[v.calls[t].mid], t, v.calls[t]);
    }
  }

  predicate Finished(pc: Pc) {
    pc.Returned? || pc.Raised?
  }

  function NextEvent(pc: Pc, t: CallId): Event
    requires !Finished(pc)
  {
    match pc
    case Waiting(_) => Acquire(t)
    case Holding(_) => Check(t)
    case Building(_) => BuildSucceeds(t)
    case Built(_, _) => Assign(t)
    case Assigned(_) => MarkLoaded(t)
    case Leaving(_) => Release(t)
    case Unlocked(_) => ReadLlm(t)
    case Read(_, _) => ReadInfo(t)
  }

  /** No deadlock: an unfinished call can step, or it waits for a lock whose holder can. */
  lemma {:induction false} NoDeadlock(s: State, t: CallId)
    requires Inv(s) && t in s.calls && !Finished(s.calls[t])
    ensures exists v :: v in s.calls && !Finished(s.calls[v]) && Apply(s, NextEvent(s.calls[v], v)).Some?
  {
    var mid := s.calls[t].mid;
    assert EntryOk(s, mid);
    var v := if s.calls[t].Waiting? && s.entries[mid].lock.Some? then s.entries[mid].lock.value else t;
    assert v in s.calls && !Finished(s.calls[v]) && Apply(s, NextEvent(s.calls[v], v)).Some?;
  }
}
