/**
 * The playback loop of scripts/run_viewer.py as a state machine. One call of
 * `Step` is one iteration of `while True`: poll events, step or reset the
 * environment, draw, append the frame to the MP4 writer, pace. Everything the
 * loop cannot decide itself (events, the environment's answers, the random
 * sample, whether the writer accepted a frame) arrives in a `Tick`.
 */
module Playback {
  import opened Wrappers
  import opened Numeric

  /** An observation returned by the environment; the loop only passes it along. */
  type Obs = int

  datatype Algo = Ppo | Qrdqn

  datatype Key = Space | KeyP | KeyS | F12 | OtherKey

  datatype Event = QuitEvent | KeyDown(key: Key) | OtherEvent

  predicate IsPauseKey(e: Event) {
    e.KeyDown? && (e.key == Space || e.key == KeyP)
  }

  predicate IsScreenshotKey(e: Event) {
    e.KeyDown? && (e.key == KeyS || e.key == F12)
  }

  predicate Odd(n: nat) {
    n % 2 == 1
  }

  function CountPauseKeys(events: seq<Event>): nat {
    if events == [] then 0
    else (if IsPauseKey(events[0]) then 1 else 0) + CountPauseKeys(events[1..])
  }

  function CountScreenshotKeys(events: seq<Event>): nat {
    if events == [] then 0
    else (if IsScreenshotKey(events[0]) then 1 else 0) + CountScreenshotKeys(events[1..])
  }

  /** What one `pygame.event.get()` pass leaves behind. */
  datatype Poll = Poll(quit: bool, paused: bool, screenshots: nat)

  /**
   * The event loop: SPACE/P flip `paused`, S/F12 save a screenshot, QUIT ends
   * the pass at once, anything else is ignored.
   */
  function PollEvents(paused: bool, screenshots: nat, events: seq<Event>): (p: Poll)
    ensures p.quit <==> QuitEvent in events
    ensures !p.quit ==> p.paused == (paused != Odd(CountPauseKeys(events)))
    ensures !p.quit ==> p.screenshots == screenshots + CountScreenshotKeys(events)
    decreases |events|
  {
    if events == [] then Poll(false, paused, screenshots)
    else if events[0] == QuitEvent then Poll(true, paused, screenshots)
    else
      var e := events[0];
      assert events == [e] + events[1..];
      PollEvents(if IsPauseKey(e) then !paused else paused,
                 screenshots + (if IsScreenshotKey(e) then 1 else 0),
                 events[1..])
  }

  /** Events queued after a QUIT are never looked at. */
  lemma {:induction false} PollStopsAtQuit(paused: bool, screenshots: nat, before: seq<Event>, after: seq<Event>)
    requires QuitEvent !in before
    ensures PollEvents(paused, screenshots, before + [QuitEvent] + after)
            == PollEvents(paused, screenshots, before).(quit := true)
    decreases |before|
  {
    var x := before + [QuitEvent] + after;
    if before == [] {
      assert x[0] == QuitEvent;
    } else {
      var e := before[0];
      assert x[0] == e && e != QuitEvent;
      assert x[1..] == before[1..] + [QuitEvent] + after;
      assert before == [e] + before[1..];
      PollStopsAtQuit(if IsPauseKey(e) then !paused else paused,
                      screenshots + (if IsScreenshotKey(e) then 1 else 0),
                      before[1..], after);
    }
  }

  /** Chosen once before the loop: a loaded model, or random sampling if loading failed. */
  datatype Policy = Trained(algo: Algo) | RandomFallback

  /** An action as the loop obtained it: `model.predict(obs)` or `action_space.sample()`. */
  datatype Action = Predicted(from: Obs) | Sampled(draw: int)

  datatype Status = Running | Quit | Crashed

  /** The command-line options the loop reads. */
  datatype Options = Options(
    algo: Algo,
    fps: int,
    recordMp4: Option<string>,
    recordSeconds: Option<int>)

  /** Outcomes decided outside the loop before it starts. */
  datatype Startup = Startup(modelLoads: bool, writerInitOk: bool, firstObs: Obs)

  /** `(obs, reward, terminated, truncated, info)` of `env.step`, reduced to what the loop reads. */
  datatype StepOutcome = StepOutcome(obs: Obs, terminated: bool, truncated: bool)

  /** Everything one iteration receives from outside. */
  datatype Tick = Tick(
    events: seq<Event>,
    draw: int,
    outcome: StepOutcome,
    resetObs: Obs,
    writeOk: bool)

  /** The loop's local variables, plus counters recording what it did. */
  datatype Loop = Loop(
    status: Status,
    obs: Obs,
    done: bool,
    paused: bool,
    policy: Policy,
    writerOpen: bool,
    framesRecorded: nat,
    closeCalls: nat,
    screenshots: nat,
    actions: seq<Action>,
    resets: nat)

  /** The `try: ... .load(...) except: model = None` block: the requested algorithm, or the random fallback. */
  function LoadPolicy(algo: Algo, modelLoads: bool): (p: Policy)
    ensures p.Trained? <==> modelLoads
    ensures p.Trained? ==> p.algo == algo
  {
    if modelLoads then Trained(algo) else RandomFallback
  }

  /** `if args.record_mp4:` — an empty path counts as absent. */
  predicate RecordingRequested(opts: Options) {
    opts.recordMp4.Some? && |opts.recordMp4.value| > 0
  }

  predicate WriterStarts(opts: Options, st: Startup) {
    RecordingRequested(opts) && st.writerInitOk
  }

  /** `record_seconds * max(1, fps)`: frames after which the writer is closed. */
  function FrameLimit(opts: Options): int
    requires opts.recordSeconds.Some?
  {
    opts.recordSeconds.value * Max(1, opts.fps)
  }

  /** Frames a writer that never fails ends up with: the first append always happens. */
  function Cutoff(opts: Options): (n: nat)
    requires opts.recordSeconds.Some?
    ensures n >= 1 && n >= FrameLimit(opts)
    ensures n == 1 || n == FrameLimit(opts)
  {
    Max(FrameLimit(opts), 1)
  }

  /** State at the top of the first iteration. */
  function Init(opts: Options, st: Startup): (s: Loop)
    ensures s.status == Running && s.obs == st.firstObs && !s.done && !s.paused
    ensures s.policy.Trained? <==> st.modelLoads
    ensures s.writerOpen <==> RecordingRequested(opts) && st.writerInitOk
    ensures s.framesRecorded == 0 && s.closeCalls == 0 && s.screenshots == 0
    ensures s.actions == [] && s.resets == 0
  {
    Loop(Running, st.firstObs, false, false, LoadPolicy(opts.algo, st.modelLoads),
         WriterStarts(opts, st), 0, 0, 0, [], 0)
  }

  function ChooseAction(policy: Policy, obs: Obs, draw: int): (a: Action)
    ensures a.Predicted? <==> policy.Trained?
    ensures a.Predicted? ==> a.from == obs
  {
    match policy
    case Trained(_) => Predicted(obs)
    case RandomFallback => Sampled(draw)
  }

  /** `if not done: (if not paused: step) else: reset`. */
  function Advance(s: Loop, tick: Tick): (r: Loop)
    ensures r.status == s.status && r.paused == s.paused && r.policy == s.policy
    ensures r.writerOpen == s.writerOpen && r.framesRecorded == s.framesRecorded
    ensures r.closeCalls == s.closeCalls && r.screenshots == s.screenshots
    ensures s.done ==> !r.done && r.obs == tick.resetObs && r.actions == s.actions
    ensures !s.done && s.paused ==> r == s
    ensures !s.done && !s.paused ==>
              && r.obs == tick.outcome.obs
              && (r.done <==> tick.outcome.terminated || tick.outcome.truncated)
              && r.actions == s.actions + [ChooseAction(s.policy, s.obs, tick.draw)]
  {
    if !s.done then
      if !s.paused then
        var a := ChooseAction(s.policy, s.obs, tick.draw);
        s.(obs := tick.outcome.obs,
           done := tick.outcome.terminated || tick.outcome.truncated,
           actions := s.actions + [a])
      else s
    else
      s.(obs := tick.resetObs, done := false, resets := s.resets + 1)
  }

  /** Close the writer, ignoring whatever `close()` raises. */
  function CloseWriter(s: Loop): Loop {
    s.(writerOpen := false, closeCalls := s.closeCalls + 1)
  }

  /**
   * The recorder block: append the frame; on success count it and close at the
   * duration cutoff; on failure close and give up recording.
   */
  function Record(opts: Options, s: Loop, writeOk: bool): (r: Loop)
    ensures r.framesRecorded == s.framesRecorded + (if s.writerOpen && writeOk then 1 else 0)
    ensures r.writerOpen ==> s.writerOpen
    ensures !s.writerOpen ==> r == s
    ensures s.writerOpen && !writeOk ==> !r.writerOpen
    ensures s.writerOpen && writeOk ==>
              (r.writerOpen <==> opts.recordSeconds.None? || r.framesRecorded < FrameLimit(opts))
    ensures r.closeCalls == s.closeCalls + (if s.writerOpen && !r.writerOpen then 1 else 0)
    ensures r.(writerOpen := s.writerOpen, framesRecorded := s.framesRecorded, closeCalls := s.closeCalls) == s
  {
    if !s.writerOpen then s
    else if !writeOk then CloseWriter(s)
    else
      var n := s.framesRecorded + 1;
      if opts.recordSeconds.Some? && n >= FrameLimit(opts) then CloseWriter(s.(framesRecorded := n))
      else s.(framesRecorded := n)
  }

  /** One iteration of the loop; a loop that has stopped stays as it is. */
  function Step(opts: Options, s: Loop, tick: Tick): (r: Loop)
    ensures s.status != Running ==> r == s
    ensures r.policy == s.policy
    ensures r.writerOpen ==> s.writerOpen
    ensures s.status == Running && QuitEvent in tick.events ==>
              && r.status == Quit && !r.writerOpen
              && r.closeCalls == s.closeCalls + (if s.writerOpen then 1 else 0)
              && r.obs == s.obs && r.done == s.done && r.actions == s.actions
              && r.framesRecorded == s.framesRecorded
    ensures s.status == Running && QuitEvent !in tick.events ==>
              && r.status == (if opts.fps > 0 then Running else Crashed)
              && r.paused == (s.paused != Odd(CountPauseKeys(tick.events)))
              && r.framesRecorded == s.framesRecorded + (if s.writerOpen && tick.writeOk then 1 else 0)
    ensures s.status == Running && QuitEvent !in tick.events && s.done ==>
              !r.done && r.obs == tick.resetObs && r.actions == s.actions
    ensures s.status == Running && QuitEvent !in tick.events && !s.done && r.paused ==>
              r.obs == s.obs && !r.done && r.actions == s.actions
    ensures s.status == Running && QuitEvent !in tick.events && !s.done && !r.paused ==>
              && r.obs == tick.outcome.obs
              && (r.done <==> tick.outcome.terminated || tick.outcome.truncated)
              && r.actions == s.actions + [ChooseAction(s.policy, s.obs, tick.draw)]
    ensures s.status == Running && QuitEvent !in tick.events && s.writerOpen ==>
              && (r.writerOpen <==> tick.writeOk && (opts.recordSeconds.None? || r.framesRecorded < FrameLimit(opts)))
              && r.closeCalls == s.closeCalls + (if r.writerOpen then 0 else 1)
    ensures s.status == Running && QuitEvent !in tick.events && !s.writerOpen ==>
              r.closeCalls == s.closeCalls
  {
    if s.status != Running then s
    else
      var p := PollEvents(s.paused, s.screenshots, tick.events);
      var polled := s.(paused := p.paused, screenshots := p.screenshots);
      if p.quit then
        var closed := if s.writerOpen then CloseWriter(polled) else polled;
        closed.(status := Quit)
      else
        var r := Record(opts, Advance(polled, tick), tick.writeOk);
        if opts.fps <= 0 then r.(status := Crashed) else r
  }

  /** Iterations until the ticks run out or the loop stops. */
  function Run(opts: Options, s: Loop, ticks: seq<Tick>): (r: Loop)
    ensures s.status != Running ==> r == s
    ensures r.policy == s.policy
    ensures r.writerOpen ==> s.writerOpen
    ensures r.framesRecorded >= s.framesRecorded
    decreases |ticks|
  {
    if ticks == [] || s.status != Running then s
    else Run(opts, Step(opts, s, ticks[0]), ticks[1..])
  }

  predicate Follows(policy: Policy, a: Action) {
    match policy
    case Trained(_) => a.Predicted?
    case RandomFallback => a.Sampled?
  }

  /** What holds at the top of every iteration of a loop started from `Init(opts, st)`. */
  predicate Inv(opts: Options, st: Startup, s: Loop) {
    && s.policy == LoadPolicy(opts.algo, st.modelLoads)
    && (forall i :: 0 <= i < |s.actions| ==> Follows(s.policy, s.actions[i]))
    && (s.writerOpen ==> WriterStarts(opts, st))
    && (!WriterStarts(opts, st) ==> s.framesRecorded == 0)
    && s.closeCalls == (if WriterStarts(opts, st) && !s.writerOpen then 1 else 0)
    && (opts.recordSeconds.Some? ==>
          s.framesRecorded <= Cutoff(opts) && (s.writerOpen ==> s.framesRecorded < Cutoff(opts)))
  }

  lemma InitInv(opts: Options, st: Startup)
    ensures Inv(opts, st, Init(opts, st))
  {
  }

  lemma StepInv(opts: Options, st: Startup, s: Loop, tick: Tick)
    requires Inv(opts, st, s)
    ensures Inv(opts, st, Step(opts, s, tick))
  {
    var r := Step(opts, s, tick);
    if s.status == Running && QuitEvent !in tick.events && !s.done {
      var p := PollEvents(s.paused, s.screenshots, tick.events);
      if !p.paused {
        assert r.actions == s.actions + [ChooseAction(s.policy, s.obs, tick.draw)];
      }
    }
  }

  /**
   * Whatever the ticks, a loop started from `Init` keeps its policy, acts only
   * through that policy, closes the writer at most once, and never records
   * past the cutoff.
   */
  lemma {:induction false} RunInv(opts: Options, st: Startup, s: Loop, ticks: seq<Tick>)
    requires Inv(opts, st, s)
    ensures Inv(opts, st, Run(opts, s, ticks))
    decreases |ticks|
  {
    if ticks != [] && s.status == Running {
      StepInv(opts, st, s, ticks[0]);
      RunInv(opts, st, Step(opts, s, ticks[0]), ticks[1..]);
    }
  }

  /** The policy chosen at startup is the one every later iteration uses. */
  lemma PolicyFixed(opts: Options, st: Startup, ticks: seq<Tick>)
    ensures Run(opts, Init(opts, st), ticks).policy == LoadPolicy(opts.algo, st.modelLoads)
  {
    RunInv(opts, st, Init(opts, st), ticks);
  }

  /** Without a loaded model every step the loop took used a random sample. */
  lemma FallbackOnlySamples(opts: Options, st: Startup, ticks: seq<Tick>)
    requires !st.modelLoads
    ensures var r := Run(opts, Init(opts, st), ticks);
            forall i :: 0 <= i < |r.actions| ==> r.actions[i].Sampled?
  {
    RunInv(opts, st, Init(opts, st), ticks);
  }

  /** After QUIT the writer is closed, and closed exactly once if it was ever opened. */
  lemma QuitClosesWriterOnce(opts: Options, st: Startup, ticks: seq<Tick>)
    ensures var r := Run(opts, Init(opts, st), ticks);
            r.status == Quit ==> !r.writerOpen && r.closeCalls == (if WriterStarts(opts, st) then 1 else 0)
  {
    var r := Run(opts, Init(opts, st), ticks);
    RunInv(opts, st, Init(opts, st), ticks);
    if r.status == Quit {
      RunQuitCloses(opts, Init(opts, st), ticks);
    }
  }

  /** A run that ends in Quit ends with no writer open. */
  lemma {:induction false} RunQuitCloses(opts: Options, s: Loop, ticks: seq<Tick>)
    requires s.status == Running
    ensures Run(opts, s, ticks).status == Quit ==> !Run(opts, s, ticks).writerOpen
    decreases |ticks|
  {
    if ticks != [] {
      var s1 := Step(opts, s, ticks[0]);
      if s1.status == Running {
        RunQuitCloses(opts, s1, ticks[1..]);
      } else {
        assert Run(opts, s1, ticks[1..]) == s1;
      }
    }
  }

  /** Once the writer is gone it never comes back, and no further frame is counted. */
  lemma {:induction false} WriterNeverReopens(opts: Options, s: Loop, ticks: seq<Tick>)
    requires !s.writerOpen
    ensures !Run(opts, s, ticks).writerOpen
    ensures Run(opts, s, ticks).framesRecorded == s.framesRecorded
    decreases |ticks|
  {
    if ticks != [] && s.status == Running {
      var s1 := Step(opts, s, ticks[0]);
      if QuitEvent !in ticks[0].events {
        assert s1.framesRecorded == s.framesRecorded;
      }
      WriterNeverReopens(opts, s1, ticks[1..]);
    }
  }

  predicate Quiet(tick: Tick) {
    QuitEvent !in tick.events && tick.writeOk
  }

  /**
   * Without a recording path, or when the writer could not be created, no
   * writer is ever open, no frame is recorded and nothing is closed.
   */
  lemma NoWriterNoFrames(opts: Options, st: Startup, ticks: seq<Tick>)
    requires !RecordingRequested(opts) || !st.writerInitOk
    ensures var r := Run(opts, Init(opts, st), ticks);
            !r.writerOpen && r.framesRecorded == 0 && r.closeCalls == 0
  {
    RunInv(opts, st, Init(opts, st), ticks);
  }

  /** With positive fps and no QUIT the loop keeps running. */
  lemma {:induction false} KeepsRunning(opts: Options, s: Loop, ticks: seq<Tick>)
    requires opts.fps > 0 && s.status == Running
    requires forall i :: 0 <= i < |ticks| ==> QuitEvent !in ticks[i].events
    ensures Run(opts, s, ticks).status == Running
    decreases |ticks|
  {
    if ticks != [] {
      KeepsRunning(opts, Step(opts, s, ticks[0]), ticks[1..]);
    }
  }

  /**
   * Duration cutoff: with the writer open, no write failure and no QUIT, the
   * writer is closed after exactly `Cutoff(opts)` frames in all, and stays closed.
   */
  lemma {:induction false} CutoffExact(opts: Options, s: Loop, ticks: seq<Tick>)
    requires opts.fps > 0 && opts.recordSeconds.Some?
    requires s.status == Running && s.writerOpen && s.framesRecorded < Cutoff(opts)
    requires forall i :: 0 <= i < |ticks| ==> Quiet(ticks[i])
    requires |ticks| >= Cutoff(opts) - s.framesRecorded
    ensures Run(opts, s, ticks).framesRecorded == Cutoff(opts)
    ensures !Run(opts, s, ticks).writerOpen
    ensures Run(opts, s, ticks).status == Running
    decreases |ticks|
  {
    var s1 := Step(opts, s, ticks[0]);
    assert Quiet(ticks[0]);
    assert s1.framesRecorded == s.framesRecorded + 1;
    assert s1.status == Running;
    if s1.writerOpen {
      CutoffExact(opts, s1, ticks[1..]);
    } else {
      WriterNeverReopens(opts, s1, ticks[1..]);
      KeepsRunning(opts, s1, ticks[1..]);
    }
  }

  /** `--fps 30 --record_seconds 2` with a working writer records exactly 60 frames. */
  lemma RecordingExample(path: string, st: Startup, ticks: seq<Tick>)
    requires |path| > 0 && st.writerInitOk
    requires |ticks| >= 60 && forall i :: 0 <= i < |ticks| ==> Quiet(ticks[i])
    ensures var opts := Options(Ppo, 30, Some(path), Some(2));
            var r := Run(opts, Init(opts, st), ticks);
            r.framesRecorded == 60 && !r.writerOpen
  {
    var opts := Options(Ppo, 30, Some(path), Some(2));
    assert Cutoff(opts) == 60;
    CutoffExact(opts, Init(opts, st), ticks);
  }

  /** A write failure closes the writer without counting the frame; the loop carries on. */
  lemma WriteFailureDisables(opts: Options, s: Loop, tick: Tick)
    requires opts.fps > 0 && s.status == Running && s.writerOpen
    requires QuitEvent !in tick.events && !tick.writeOk
    ensures var r := Step(opts, s, tick);
            && r.status == Running && !r.writerOpen
            && r.framesRecorded == s.framesRecorded && r.closeCalls == s.closeCalls + 1
  {
  }

  /** A non-positive fps stops the loop at the pacing sleep of its first iteration. */
  lemma NonPositiveFpsCrashes(opts: Options, s: Loop, tick: Tick)
    requires opts.fps <= 0 && s.status == Running && QuitEvent !in tick.events
    ensures Step(opts, s, tick).status == Crashed
  {
  }

  /**
   * While paused (no pause key pressed an odd number of times in any tick) the
   * environment is never stepped: the observation and the action history
   * stay as they were.
   */
  lemma {:induction false} PausedHoldsObservation(opts: Options, s: Loop, ticks: seq<Tick>)
    requires s.status == Running && s.paused && !s.done
    requires forall i :: 0 <= i < |ticks| ==>
               QuitEvent !in ticks[i].events && !Odd(CountPauseKeys(ticks[i].events))
    ensures var r := Run(opts, s, ticks);
            r.obs == s.obs && r.actions == s.actions && r.paused && !r.done
    decreases |ticks|
  {
    if ticks != [] {
      var s1 := Step(opts, s, ticks[0]);
      if s1.status == Running {
        PausedHoldsObservation(opts, s1, ticks[1..]);
      }
    }
  }

  /** An iteration that starts with the episode over resets it and does not step, paused or not. */
  lemma DoneResets(opts: Options, s: Loop, tick: Tick)
    requires s.status == Running && s.done && QuitEvent !in tick.events
    ensures var r := Step(opts, s, tick);
            && !r.done && r.obs == tick.resetObs && r.actions == s.actions && r.resets == s.resets + 1
  {
  }
}
