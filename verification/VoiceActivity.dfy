/** The browser's voice-activity state machine (`autoVoice` of app.js). */
module VoiceActivity {
  import opened Wrappers

  const SILENCE_MS := 1000
  const MIN_SPEECH_MS := 400
  const MAX_TURN_MS := 30000
  const NOISE_ADAPT := 0.92
  const SPEECH_MULT := 2.8
  const MIN_THRESHOLD := 0.012
  const MIN_BLOB := 256

  datatype Phase = Off | Armed | Speaking | Processing

  /**
   * `stream` stands for the microphone stream and its analyser, which are set and cleared together. `running`
   * holds the recorders that are not inactive, `stopping` those whose stop handler has yet to fire.
   */
  datatype State = State(
    enabled: bool, phase: Phase, stream: bool,
    recorder: Option<nat>, running: set<nat>, stopping: set<nat>, nextRecorder: nat,
    chunks: seq<nat>, noiseFloor: real,
    speechStartedAt: int, recordStartedAt: int, silenceStartedAt: Option<int>, finishing: bool)

  const INITIAL := State(false, Off, false, None, {}, {}, 0, [], 0.01, 0, 0, None, false)

  function Threshold(s: State): real {
    if s.noiseFloor * SPEECH_MULT > MIN_THRESHOLD then s.noiseFloor * SPEECH_MULT else MIN_THRESHOLD
  }

  function BlobSize(chunks: seq<nat>): nat {
    if chunks == [] then 0 else chunks[0] + BlobSize(chunks[1..])
  }

  function StopListening(s: State): State {
    s.(enabled := false, phase := Off, stream := false, recorder := None, chunks := [], finishing := false,
       running := if s.recorder.Some? then s.running - {s.recorder.value} else s.running)
  }

  function Begin(s: State, now: int): State {
    if !s.enabled || s.phase != Armed || !s.stream then s
    else s.(chunks := [], finishing := false, silenceStartedAt := None,
            speechStartedAt := now, recordStartedAt := now,
            recorder := Some(s.nextRecorder), running := s.running + {s.nextRecorder},
            nextRecorder := s.nextRecorder + 1, phase := Speaking)
  }

  /** The tests at the head of `finishAutoRecording`. */
  predicate Refused(s: State, force: bool, now: int) {
    || !s.enabled || s.phase != Speaking || s.finishing
    || (!force && now - s.speechStartedAt < MIN_SPEECH_MS)
  }

  function Finish(s: State, force: bool, now: int): State {
    if Refused(s, force, now) then s
    else if s.recorder.None? || s.recorder.value !in s.running
    then s.(finishing := false, phase := Armed, silenceStartedAt := None)
    else s.(finishing := true, running := s.running - {s.recorder.value}, stopping := s.stopping + {s.recorder.value})
  }

  predicate IsSpeech(s: State, rms: real) {
    rms > Threshold(s)
  }

  /** A tick reads the clock, and the function it may call reads it again at `later`. */
  function Tick(s: State, rms: real, now: int, later: int): State {
    if !s.enabled || !s.stream || s.phase == Processing || s.finishing then s
    else if s.phase == Armed then
      var adapted := s.(noiseFloor := s.noiseFloor * NOISE_ADAPT + rms * (1.0 - NOISE_ADAPT));
      if IsSpeech(s, rms) then Begin(adapted, later) else adapted
    else if s.phase != Speaking then s
    else if IsSpeech(s, rms) then s.(silenceStartedAt := None)
    else
      var silent := Silenced(s, now);
      if EndsTurn(silent, now) then Finish(silent, HitMax(silent, now), later) else silent
  }

  /** The start of the silence is noted once; zero counts as unset, as it does in JavaScript. */
  function Silenced(s: State, now: int): State {
    if s.silenceStartedAt.None? || s.silenceStartedAt.value == 0 then s.(silenceStartedAt := Some(now)) else s
  }

  predicate HitMax(s: State, now: int) {
    now - s.recordStartedAt >= MAX_TURN_MS
  }

  predicate EndsTurn(s: State, now: int)
    requires s.silenceStartedAt.Some?
  {
    || (now - s.speechStartedAt >= MIN_SPEECH_MS && now - s.silenceStartedAt.value >= SILENCE_MS)
    || HitMax(s, now)
  }

  /** The stop handler of recorder `r`. */
  function OnStop(s: State, r: nat): State {
    s.(stopping := s.stopping - {r}, recorder := None, chunks := [], finishing := false, silenceStartedAt := None,
       phase := if BlobSize(s.chunks) < MIN_BLOB then (if s.enabled then Armed else Off) else Processing)
  }

  function ResumeAfterTurn(s: State): State {
    if !s.enabled || !s.stream then StopListening(s)
    else s.(phase := Armed, silenceStartedAt := None, finishing := false)
  }

  function Start(s: State): State {
    s.(stream := true, enabled := true, phase := Armed,
       noiseFloor := 0.01, silenceStartedAt := None, finishing := false)
  }

  datatype Event =
    | VadTick(rms: real, now: int, later: int)
    | StopClicked(now: int)
    | StopRequested
    | Started
    | DataAvailable(size: nat)
    | RecorderDied(r: nat)
    | RecorderStopped(r: nat)
    | TurnDone

  function Apply(s: State, ev: Event): State {
    match ev
    case VadTick(rms, now, later) => Tick(s, rms, now, later)
    case StopClicked(now) =>
      if !s.enabled then s
      else if s.phase == Speaking then Finish(s, true, now)
      else if s.phase == Armed then StopListening(s)
      else s
    case StopRequested => StopListening(s)
    case Started => Start(s)
    case DataAvailable(size) => if size > 0 then s.(chunks := s.chunks + [size]) else s
    case RecorderDied(r) => s.(running := s.running - {r})
    case RecorderStopped(r) => if r in s.stopping then OnStop(s, r) else s
    case TurnDone => if s.enabled then ResumeAfterTurn(s) else s
  }

  // ---- The imperative form ----

  class AutoVoice {
    var enabled: bool
    var phase: Phase
    var stream: bool
    var recorder: Option<nat>
    var running: set<nat>
    var stopping: set<nat>
    var nextRecorder: nat
    var chunks: seq<nat>
    var noiseFloor: real
    var speechStartedAt: int
    var recordStartedAt: int
    var silenceStartedAt: Option<int>
    var finishing: bool

    ghost function Abstract(): State
      reads this
    {
      State(enabled, phase, stream, recorder, running, stopping, nextRecorder, chunks, noiseFloor,
            speechStartedAt, recordStartedAt, silenceStartedAt, finishing)
    }

    constructor ()
      ensures Abstract() == INITIAL
    {
      enabled, phase, stream, recorder, running, stopping := false, Off, false, None, {}, {};
      nextRecorder, chunks, noiseFloor := 0, [], 0.01;
      speechStartedAt, recordStartedAt, silenceStartedAt, finishing := 0, 0, None, false;
    }

    method BeginAutoRecording(now: int)
      modifies this
      ensures Abstract() == Begin(old(Abstract()), now)
    {
      if !enabled || phase != Armed || !stream {
        return;
      }
      chunks, finishing, silenceStartedAt := [], false, None;
      speechStartedAt, recordStartedAt := now, now;
      StartRecorder();
      phase := Speaking;
    }

    method StartRecorder()
      modifies `recorder, `running, `nextRecorder
      ensures recorder == Some(old(nextRecorder)) && running == old(running) + {old(nextRecorder)}
      ensures nextRecorder == old(nextRecorder) + 1
    {
      recorder, running, nextRecorder := Some(nextRecorder), running + {nextRecorder}, nextRecorder + 1;
    }

    method FinishAutoRecording(force: bool, now: int)
      modifies this
      ensures Abstract() == Finish(old(Abstract()), force, now)
    {
      if !enabled || phase != Speaking || finishing {
        return;
      }
      if !force && now - speechStartedAt < MIN_SPEECH_MS {
        return;
      }
      finishing := true;
      if recorder.None? || recorder.value !in running {
        finishing := false;
        phase := Armed;
        silenceStartedAt := None;
        return;
      }
      stopping := stopping + {recorder.value};
      running := running - {recorder.value};
    }

    method RunVadTick(rms: real, now: int, later: int)
      modifies this
      ensures Abstract() == Tick(old(Abstract()), rms, now, later)
    {
      if !enabled || !stream {
        return;
      }
      if phase == Processing || finishing {
        return;
      }
      var scaled := noiseFloor * SPEECH_MULT;
      var isSpeech := rms > if scaled > MIN_THRESHOLD then scaled else MIN_THRESHOLD;
      if phase == Armed {
        noiseFloor := noiseFloor * NOISE_ADAPT + rms * (1.0 - NOISE_ADAPT);
        if isSpeech {
          BeginAutoRecording(later);
        }
        return;
      }
      if phase != Speaking {
        return;
      }
      if isSpeech {
        silenceStartedAt := None;
        return;
      }
      if silenceStartedAt.None? || silenceStartedAt.value == 0 {
        silenceStartedAt := Some(now);
      }
      var longEnough := now - speechStartedAt >= MIN_SPEECH_MS;
      var pausedEnough := now - silenceStartedAt.value >= SILENCE_MS;
      var hitMax := now - recordStartedAt >= MAX_TURN_MS;
      if (longEnough && pausedEnough) || hitMax {
        FinishAutoRecording(hitMax, later);
      }
    }

    method StopAutoListen()
      modifies this
      ensures Abstract() == StopListening(old(Abstract()))
    {
      enabled := false;
      phase := Off;
      if recorder.Some? && recorder.value in running {
        running := running - {recorder.value};
      }
      recorder := None;
      chunks := [];
      stream := false;
      finishing := false;
    }

    method HandleStop(r: nat)
      modifies this
      ensures Abstract() == OnStop(old(Abstract()), r)
    {
      stopping := stopping - {r};
      recorder := None;
      var size := BlobSize(chunks);
      chunks := [];
      finishing := false;
      silenceStartedAt := None;
      if size < MIN_BLOB {
        phase := if enabled then Armed else Off;
        return;
      }
      phase := Processing;
    }

    method ResumeAutoListenAfterTurn()
      modifies this
      ensures Abstract() == ResumeAfterTurn(old(Abstract()))
    {
      if !enabled || !stream {
        StopAutoListen();
        return;
      }
      phase := Armed;
      silenceStartedAt := None;
      finishing := false;
    }

    /** The part of `startAutoListen` after the microphone has been granted. */
    method StartAutoListen()
      modifies this
      ensures Abstract() == Start(old(Abstract()))
    {
      stream, enabled, phase := true, true, Armed;
      noiseFloor, silenceStartedAt, finishing := 0.01, None, false;
    }

    /** The click handler of the stop button: "Send now" while speaking, "Stop listening" while armed. */
    method ClickStop(now: int)
      modifies this
      ensures Abstract() == Apply(old(Abstract()), StopClicked(now))
    {
      if !enabled {
        return;
      }
      if phase == Speaking {
        FinishAutoRecording(true, now);
      } else if phase == Armed {
        StopAutoListen();
      }
    }

    /** Dispatch of one event to its handler. */
    method Handle(ev: Event)
      modifies this
      ensures Abstract() == Apply(old(Abstract()), ev)
    {
      match ev
      case VadTick(rms, now, later) => RunVadTick(rms, now, later);
      case StopClicked(now) => ClickStop(now);
      case StopRequested => StopAutoListen();
      case Started => StartAutoListen();
      case DataAvailable(size) =>
        if size > 0 {
          chunks := chunks + [size];
        }
      case RecorderDied(r) => running := running - {r};
      case RecorderStopped(r) =>
        if r in stopping {
          HandleStop(r);
        }
      case TurnDone =>
        if enabled {
          ResumeAutoListenAfterTurn();
        }
    }

    /** Whatever events the page delivers on a monotone clock, the object goes through a run and keeps its invariant. */
    method Play(events: seq<Event>, ghost clock: int) returns (ghost run: Run)
      requires Abstract() == INITIAL && 0 < clock && TimelyAll(events, clock)
      modifies this
      ensures IsRun(run) && run.events == events && run.states[|events|] == Abstract()
      ensures Inv(Abstract(), run.clocks[|events|])
    {
      run := Run([Abstract()], [], [clock]);
      for n := 0 to |events|
        invariant IsRun(run) && run.events == events[..n] && run.states[n] == Abstract()
        invariant TimelyAll(events[n..], run.clocks[n])
      {
        assert events[n..][0] == events[n] && events[n..][1..] == events[n + 1..];
        ExtendRun(run, events[n]);
        Handle(events[n]);
        run := Extended(run, events[n]);
        assert events[..n] + [events[n]] == events[..n + 1];
      }
      assert events[..|events|] == events;
      RunKeeps(run, |events|);
    }
  }

  // ---- Runs under a monotone clock ----

  /** The event reads the clock no earlier than `clock`, and forward if it reads it twice. */
  predicate Timely(ev: Event, clock: int) {
    match ev
    case VadTick(_, now, later) => clock <= now <= later
    case StopClicked(now) => clock <= now
    case _ => true
  }

  function ClockAfter(ev: Event, clock: int): int {
    match ev
    case VadTick(_, _, later) => later
    case StopClicked(now) => now
    case _ => clock
  }

  /** The states of a run, one more than there are events, and the clock before each event. */
  datatype Run = Run(states: seq<State>, events: seq<Event>, clocks: seq<int>)

  ghost predicate IsRun(run: Run) {
    && |run.states| == |run.events| + 1 == |run.clocks|
    && run.states[0] == INITIAL && 0 < run.clocks[0]
    && (forall k :: 0 <= k < |run.events| ==>
          && Timely(run.events[k], run.clocks[k])
          && run.states[k + 1] == Apply(run.states[k], run.events[k])
          && run.clocks[k + 1] == ClockAfter(run.events[k], run.clocks[k]))
  }

  predicate TimelyAll(events: seq<Event>, clock: int)
    decreases |events|
  {
    events == [] || (Timely(events[0], clock) && TimelyAll(events[1..], ClockAfter(events[0], clock)))
  }

  function Extended(run: Run, ev: Event): Run
    requires |run.states| > 0 && |run.clocks| > 0
  {
    Run(run.states + [Apply(run.states[|run.states| - 1], ev)], run.events + [ev],
        run.clocks + [ClockAfter(ev, run.clocks[|run.clocks| - 1])])
  }

  lemma ExtendRun(run: Run, ev: Event)
    requires IsRun(run) && Timely(ev, run.clocks[|run.events|])
    ensures IsRun(Extended(run, ev))
  {
    var longer, n := Extended(run, ev), |run.events|;
    forall k | 0 <= k < |longer.events|
      ensures
        && Timely(longer.events[k], longer.clocks[k])
        && longer.states[k + 1] == Apply(longer.states[k], longer.events[k])
        && longer.clocks[k + 1] == ClockAfter(longer.events[k], longer.clocks[k])
    {
      assert k < n ==> longer.states[k + 1] == run.states[k + 1] && longer.clocks[k + 1] == run.clocks[k + 1];
    }
  }

  /**
   * A running recording began in the past, its silence after it, only an enabled microphone listens, and only a
   * recording is being finished.
   */
  predicate Inv(s: State, clock: int) {
    && 0 < clock
    && (s.enabled <==> s.stream)
    && (s.phase in {Armed, Speaking} ==> s.enabled) && (s.finishing ==> s.phase == Speaking)
    && (s.phase == Speaking ==> 0 < s.speechStartedAt == s.recordStartedAt <= clock && s.recorder.Some?)
    && (s.phase == Speaking && s.silenceStartedAt.Some? ==>
          s.speechStartedAt <= s.silenceStartedAt.value <= clock)
  }

  lemma StepKeeps(s: State, ev: Event, clock: int)
    requires Inv(s, clock) && Timely(ev, clock)
    ensures clock <= ClockAfter(ev, clock) && Inv(Apply(s, ev), ClockAfter(ev, clock))
  {
  }

  lemma RunStep(run: Run, k: nat)
    requires IsRun(run) && k < |run.events|
    ensures Timely(run.events[k], run.clocks[k])
    ensures run.states[k + 1] == Apply(run.states[k], run.events[k])
    ensures run.clocks[k + 1] == ClockAfter(run.events[k], run.clocks[k])
  {
  }

  lemma {:induction false} RunKeeps(run: Run, k: nat)
    requires IsRun(run) && k < |run.states|
    ensures Inv(run.states[k], run.clocks[k])
    decreases k
  {
    if k > 0 {
      RunKeeps(run, k - 1);
      RunStep(run, k - 1);
      StepKeeps(run.states[k - 1], run.events[k - 1], run.clocks[k - 1]);
    }
  }

  predicate Recording(s: State) {
    s.phase == Speaking && !s.finishing
  }

  predicate SilentTick(s: State, ev: Event) {
    ev.VadTick? && !IsSpeech(s, ev.rms)
  }

  predicate SpeechTick(s: State, ev: Event) {
    ev.VadTick? && IsSpeech(s, ev.rms)
  }

  // ---- What each event does, in numbers ----

  /** The level is above both the fixed threshold and 2.8 times the noise floor. */
  predicate Loud(s: State, rms: real) {
    rms > 0.012 && rms > 2.8 * s.noiseFloor
  }

  /** A tick while armed starts a recording exactly when it is loud, and moves the noise floor towards the level. */
  lemma ArmedTick(run: Run, k: nat)
    requires IsRun(run) && k < |run.events| && run.states[k].phase == Armed && run.events[k].VadTick?
    ensures var s, u, ev := run.states[k], run.states[k + 1], run.events[k];
      && (Recording(u) <==> Loud(s, ev.rms))
      && (Loud(s, ev.rms) ==>
            && u.speechStartedAt == u.recordStartedAt == ev.later && u.silenceStartedAt == None && u.chunks == []
            && u.recorder == Some(s.nextRecorder) && u.running == s.running + {s.nextRecorder})
      && (!Loud(s, ev.rms) ==> u == s.(noiseFloor := u.noiseFloor))
      && u.noiseFloor == 0.92 * s.noiseFloor + 0.08 * ev.rms
      && (s.noiseFloor <= ev.rms ==> s.noiseFloor <= u.noiseFloor <= ev.rms)
      && (ev.rms <= s.noiseFloor ==> ev.rms <= u.noiseFloor <= s.noiseFloor)
  {
    RunKeeps(run, k);
    assert run.states[k + 1] == Apply(run.states[k], run.events[k]);
  }

  /** When the silence that a quiet tick belongs to began. */
  function SilenceStart(s: State, now: int): int {
    if s.silenceStartedAt.Some? then s.silenceStartedAt.value else now
  }

  /**
   * A tick while recording: a loud one forgets the silence and nothing else. A quiet one ends the recording exactly
   * after 400 ms of speech and 1000 ms of silence, or 30 s of recording; otherwise it notes the silence.
   */
  lemma RecordingTick(run: Run, k: nat)
    requires IsRun(run) && k < |run.events| && Recording(run.states[k]) && run.events[k].VadTick?
    ensures var s, u, ev := run.states[k], run.states[k + 1], run.events[k];
      var quietFor, recordedFor := ev.now - SilenceStart(s, ev.now), ev.now - s.recordStartedAt;
      && (Loud(s, ev.rms) ==> u == s.(silenceStartedAt := None))
      && (!Loud(s, ev.rms) ==>
            (Recording(u) <==> !((recordedFor >= 400 && quietFor >= 1000) || recordedFor >= 30000)))
      && (!Loud(s, ev.rms) && Recording(u) ==> u == s.(silenceStartedAt := Some(SilenceStart(s, ev.now))))
      && (!Recording(u) && s.recorder.Some? && s.recorder.value in s.running ==>
            && u.finishing && u.stopping == s.stopping + {s.recorder.value}
            && u.running == s.running - {s.recorder.value})
      && (!Recording(u) && s.recorder.Some? && s.recorder.value !in s.running ==> u.phase == Armed)
  {
    RunKeeps(run, k);
    assert run.states[k + 1] == Apply(run.states[k], run.events[k]);
  }

  /** Ticks do nothing in any other phase, nor while a recording is being finished. */
  lemma IdleTick(run: Run, k: nat)
    requires IsRun(run) && k < |run.events| && run.events[k].VadTick?
    requires run.states[k].phase in {Off, Processing} || run.states[k].finishing
    ensures run.states[k + 1] == run.states[k]
  {
    RunKeeps(run, k);
    assert run.states[k + 1] == Apply(run.states[k], run.events[k]);
  }

  /** The buttons: starting arms, stopping switches all off, and the stop button sends a recording of any length. */
  lemma Buttons(s: State, clock: int, now: int)
    requires Inv(s, clock)
    ensures var u := Apply(s, Started);
      u.phase == Armed && u.enabled && u.stream && !u.finishing && u.noiseFloor == 0.01 && u.silenceStartedAt == None
    ensures var u := Apply(s, StopRequested);
      && u.phase == Off && !u.enabled && !u.stream && !u.finishing && u.recorder == None && u.chunks == []
      && (s.recorder.Some? ==> u.running == s.running - {s.recorder.value})
    ensures s.phase == Armed ==> Apply(s, StopClicked(now)) == Apply(s, StopRequested)
    ensures Recording(s) && s.recorder.value in s.running ==> var u := Apply(s, StopClicked(now));
      u.finishing && s.recorder.value in u.stopping && s.recorder.value !in u.running && u.chunks == s.chunks
    ensures s.phase in {Off, Processing} || s.finishing ==> Apply(s, StopClicked(now)) == s
    ensures Apply(s, TurnDone)
      == if s.enabled then s.(phase := Armed, silenceStartedAt := None, finishing := false) else s
  {
  }

  /** The bytes that the data events among `events[i..j]` deliver. */
  function Delivered(events: seq<Event>, i: nat, j: nat): nat
    requires i <= j <= |events|
    decreases j
  {
    if i == j then 0
    else Delivered(events, i, j - 1) + if events[j - 1].DataAvailable? then events[j - 1].size else 0
  }

  lemma {:induction false} BlobSizeAppend(chunks: seq<nat>, size: nat)
    ensures BlobSize(chunks + [size]) == BlobSize(chunks) + size
  {
    if chunks != [] {
      assert (chunks + [size])[0] == chunks[0] && (chunks + [size])[1..] == chunks[1..] + [size];
      BlobSizeAppend(chunks[1..], size);
    }
  }

  lemma SpeakingStep(s: State, ev: Event)
    requires s.phase == Speaking && Apply(s, ev).phase == Speaking
    ensures BlobSize(Apply(s, ev).chunks) == BlobSize(s.chunks) + if ev.DataAvailable? then ev.size else 0
  {
    if ev.DataAvailable? {
      BlobSizeAppend(s.chunks, ev.size);
    }
  }

  /** Since a recording began with event `i`, its chunks hold exactly what was delivered. */
  lemma {:induction false} RecordingHolds(run: Run, i: nat, j: nat)
    requires IsRun(run) && i < j <= |run.events|
    requires run.states[i].phase == Armed && forall k :: i < k <= j ==> run.states[k].phase == Speaking
    ensures BlobSize(run.states[j].chunks) == Delivered(run.events, i + 1, j)
    decreases j
  {
    assert run.states[j - 1 + 1] == Apply(run.states[j - 1], run.events[j - 1]);
    RunKeeps(run, j - 1);
    if i + 1 < j {
      RecordingHolds(run, i, j - 1);
      SpeakingStep(run.states[j - 1], run.events[j - 1]);
    }
  }

  /**
   * A recording is sent when its recorder stops exactly if 256 bytes or more were delivered since it began, and
   * otherwise dropped, and the page listens again.
   */
  lemma SentExactly(run: Run, i: nat, j: nat)
    requires IsRun(run) && i < j < |run.events|
    requires run.states[i].phase == Armed && forall k :: i < k <= j ==> run.states[k].phase == Speaking
    requires run.events[j].RecorderStopped? && run.events[j].r in run.states[j].stopping
    ensures run.states[j + 1].phase == if Delivered(run.events, i + 1, j) >= 256 then Processing else Armed
    ensures run.states[j + 1].chunks == [] && !run.states[j + 1].finishing && run.states[j + 1].recorder == None
  {
    RecordingHolds(run, i, j);
    RunKeeps(run, j);
    assert run.states[j + 1] == Apply(run.states[j], run.events[j]);
  }

  /** Every change of phase: what leads into a recording, to a turn, back to listening, and off. */
  lemma PhaseMoves(s: State, ev: Event, clock: int)
    requires Inv(s, clock) && Timely(ev, clock) && Apply(s, ev).phase != s.phase
    ensures match Apply(s, ev).phase
      case Speaking => s.phase == Armed && ev.VadTick? && Loud(s, ev.rms)
      case Processing => ev.RecorderStopped? && ev.r in s.stopping && BlobSize(s.chunks) >= 256
      case Armed => ev.Started? || ev.TurnDone? || ev.RecorderStopped? || (s.phase == Speaking && !s.finishing)
      case Off => ev.StopRequested? || (ev.StopClicked? && s.phase == Armed) || (ev.RecorderStopped? && !s.enabled)
  {
  }

  /** A finish that a tick asks for is never turned down by the tests of `finishAutoRecording`. */
  lemma TickFinishIsNotRefused(run: Run, k: nat)
    requires IsRun(run) && k < |run.events| && Recording(run.states[k]) && SilentTick(run.states[k], run.events[k])
    requires EndsTurn(Silenced(run.states[k], run.events[k].now), run.events[k].now)
    ensures var s, ev := Silenced(run.states[k], run.events[k].now), run.events[k];
      !Refused(s, HitMax(s, ev.now), ev.later)
    ensures !Recording(run.states[k + 1])
    ensures run.events[k].now - run.states[k].speechStartedAt >= MIN_SPEECH_MS
  {
    RunKeeps(run, k);
  }

  /** What a silent tick leaves behind when the recording goes on. */
  lemma SilentTickBounds(s: State, ev: Event, clock: int)
    requires Inv(s, clock) && Timely(ev, clock) && Recording(s) && SilentTick(s, ev) && Recording(Apply(s, ev))
    ensures var u := Apply(s, ev);
      && u.silenceStartedAt.Some? && u.silenceStartedAt.value <= ev.now
      && (s.silenceStartedAt.Some? ==> u.silenceStartedAt == s.silenceStartedAt)
      && ev.now - u.silenceStartedAt.value < SILENCE_MS
      && ev.now - u.recordStartedAt < MAX_TURN_MS
  {
  }

  /** Between events i and j the recording goes on and no tick hears speech. */
  ghost predicate Pause(run: Run, i: nat, j: nat) {
    && IsRun(run) && i <= j < |run.events|
    && (forall k :: i <= k <= j + 1 ==> Recording(run.states[k]))
    && (forall k :: i <= k <= j ==> !SpeechTick(run.states[k], run.events[k]))
  }

  lemma StepKeepsSilence(s: State, ev: Event)
    requires Recording(s) && Recording(Apply(s, ev)) && !SpeechTick(s, ev) && !ev.VadTick?
    ensures Apply(s, ev).silenceStartedAt == s.silenceStartedAt
  {
  }

  lemma {:induction false} PauseKeepsStart(run: Run, i: nat, j: nat)
    requires Pause(run, i, j) && SilentTick(run.states[i], run.events[i])
    ensures run.states[j + 1].silenceStartedAt.Some?
    ensures run.states[j + 1].silenceStartedAt.value <= run.events[i].now
    decreases j
  {
    RunKeeps(run, j);
    var s, ev := run.states[j], run.events[j];
    assert run.states[j + 1] == Apply(s, ev);
    if i < j {
      PauseKeepsStart(run, i, j - 1);
    }
    if ev.VadTick? {
      SilentTickBounds(s, ev, run.clocks[j]);
    } else {
      StepKeepsSilence(s, ev);
    }
  }

  /**
   * As long as the recording goes on, any two silent ticks of one pause are less than SILENCE_MS apart and the
   * recording is younger than MAX_TURN_MS, whatever else happens in between.
   */
  lemma PauseIsShort(run: Run, i: nat, j: nat)
    requires Pause(run, i, j)
    requires SilentTick(run.states[i], run.events[i]) && SilentTick(run.states[j], run.events[j])
    ensures run.events[j].now - run.events[i].now < SILENCE_MS
    ensures run.events[j].now - run.states[j + 1].recordStartedAt < MAX_TURN_MS
  {
    PauseKeepsStart(run, i, j);
    RunKeeps(run, j);
    SilentTickBounds(run.states[j], run.events[j], run.clocks[j]);
    assert run.states[j + 1] == Apply(run.states[j], run.events[j]);
  }

  /** Speech ticks return before the age is tested, so a recording that never falls silent has no age limit. */
  lemma SpeechHasNoAgeLimit(s: State, rms: real, now: int, later: int)
    requires Recording(s) && s.enabled && s.stream && IsSpeech(s, rms)
    ensures Recording(Tick(s, rms, now, later)) && Tick(s, rms, now, later).recordStartedAt == s.recordStartedAt
  {
  }
}
