/** Deferred pause of the tunnelled audio output.

    A pause starts a helper thread that acts 300 ms later on whatever was asked for last.  Every
    step below runs under the stream lock; the helper thread sleeps without it.  Times are
    nanoseconds. */
module Debounce {
  import opened Common

  const MS: nat := 1_000_000
  const WINDOW_MS: nat := 300
  const WINDOW: nat := 300_000_000

  /** debounce, debounce_pausing, debounce_more, debounce_stopping, last_pause_time. */
  datatype Flags = Flags(live: bool, pausing: bool, more: bool, stopping: bool, lastPause: nat)

  const Clear := Flags(false, false, false, false, 0)

  /** Decoder at rate zero, STC frozen, and whether any hardware call has failed. */
  datatype Hardware = Hardware(decoder: bool, stc: bool, failed: bool)

  /** Answers of the two hardware calls and of the rollback of the first. */
  datatype Answers = Answers(decoderOk: bool, stcOk: bool, rollbackOk: bool)

  /** The helper thread: asleep until some time, or ended and waiting to be joined. */
  datatype Task = NoTask | Sleeping(until: nat) | Ended

  datatype Stop = Idle | Joining

  /** `wanted` is the last request, `acted` the last one carried out (at first the hardware runs), and
      `discarded` says that a stop has joined the helper thread since the last request; `armedAt` the time of the pause that
      last turned the outcome into pausing, `found` how long ago a wake-up that slept on for it found
      that to be; thread counts are history. */
  datatype State = State(
    now: nat, started: bool, stop: Stop, flags: Flags, hw: Hardware, task: Task,
    wanted: Option<bool>, acted: bool, discarded: bool,
    armedAt: nat, found: Option<nat>, threads: Threads)

  datatype Threads = Threads(created: nat, detached: nat, joined: nat)

  datatype Step =
    | Tick(d: nat)
    | Start
    | Pause(createOk: bool, ans: Answers)
    | Resume(ans: Answers)
    | StopBegin
    | StopEnd
    | Wake(ans: Answers)

  function Initial(): State {
    State(0, false, Idle, Clear, Hardware(false, false, false), NoTask, None, false, false, 0, None,
          Threads(0, 0, 0))
  }

  /** Set the trick rate, then the STC; undo the first if the second fails. */
  function Drive(hw: Hardware, pause: bool, ans: Answers): (h: Hardware) {
    if !ans.decoderOk then hw.(failed := true)
    else if ans.stcOk then hw.(decoder := pause, stc := pause)
    else hw.(decoder := if ans.rollbackOk then !pause else pause, failed := true)
  }

  // ------------------------------------------------------------------ the re-armed window

  /** Elapsed time in whole milliseconds, rounded up; out of int range it is minus one. */
  function ElapsedMs(elapsed: nat): int {
    if elapsed > 2147483646 * MS then -1 else (elapsed + MS - 1) / MS
  }

  /** How much longer the helper thread sleeps when it finds a newer pause `elapsed` ago. */
  function MoreSleep(elapsed: nat): nat {
    var delta := WINDOW_MS - ElapsedMs(elapsed);
    if 0 < delta <= WINDOW_MS then delta * MS else 0
  }

  /** The re-armed window is short of 300 ms by less than 1 ms, and complete exactly if the
      elapsed time is a whole number of milliseconds or already exceeds the window. */
  lemma RearmedWindow(elapsed: nat)
    ensures elapsed + MoreSleep(elapsed) > WINDOW - MS
    ensures elapsed + MoreSleep(elapsed) >= WINDOW <==> elapsed % MS == 0 || elapsed >= WINDOW
  {
    var k, r := elapsed / MS, elapsed % MS;
    assert elapsed == k * MS + r;
    if elapsed <= 2147483646 * MS {
      assert ElapsedMs(elapsed) == if r == 0 then k else k + 1;
    }
  }

  /** The window of a pause, given what a re-arming wake-up found. */
  function Window(found: Option<nat>): nat {
    if found.None? then WINDOW else found.value + MoreSleep(found.value)
  }

  /** Nothing re-armed the window, or it was re-armed a whole number of milliseconds after the pause,
      or after the window was over. */
  predicate Exact(found: Option<nat>) {
    found.None? || found.value % MS == 0 || found.value >= WINDOW
  }

  // ------------------------------------------------------------------ steps

  predicate Enabled(s: State, step: Step) {
    match step
    case Tick(_) => true
    case Start => !s.started
    case Pause(_, _) => s.started && (s.stop.Idle? || s.flags.live)
    case Resume(_) => s.started && (s.stop.Idle? || s.flags.live)
    case StopBegin => s.started && s.stop.Idle?
    case StopEnd => s.stop.Joining? && s.task.Ended?
    case Wake(_) => s.task.Sleeping? && s.now >= s.task.until
  }

  function ApplyPause(s: State, createOk: bool, ans: Answers): State {
    if s.flags.live then
      var f := if s.flags.pausing then s.flags else s.flags.(more := true, lastPause := s.now);
      s.(flags := f.(pausing := true), wanted := Some(true), discarded := false,
         armedAt := if s.flags.pausing then s.armedAt else s.now, found := if s.flags.pausing then s.found else None)
    else if createOk then
      s.(flags := s.flags.(live := true, pausing := true), task := Sleeping(s.now + WINDOW), wanted := Some(true),
         discarded := false, armedAt := s.now, found := None, threads := s.threads.(created := s.threads.created + 1))
    else s.(hw := Drive(s.hw, true, ans), wanted := Some(true), acted := true, discarded := false)
  }

  function ApplyResume(s: State, ans: Answers): State {
    if s.flags.live then s.(flags := s.flags.(pausing := false, more := false), wanted := Some(false), discarded := false)
    else s.(hw := Drive(s.hw, false, ans), wanted := Some(false), acted := false, discarded := false)
  }

  /** The helper thread's critical section after a sleep: sleep on for a newer pause, otherwise
      act on the last request and detach, or leave everything to a stop that is joining. */
  function ApplyWake(s: State, ans: Answers): State
    requires s.task.Sleeping?
  {
    var again := !s.flags.stopping && s.flags.more;
    var elapsed := if s.now >= s.flags.lastPause then s.now - s.flags.lastPause else 0;
    var sleep := MoreSleep(elapsed);
    if again && sleep > 0 then s.(flags := s.flags.(more := false), task := Sleeping(s.now + sleep), found := Some(elapsed))
    else if s.flags.stopping then s.(flags := Clear, task := Ended)
    else s.(flags := Clear, task := NoTask, hw := Drive(s.hw, s.flags.pausing, ans), acted := s.flags.pausing,
            threads := s.threads.(detached := s.threads.detached + 1))
  }

  function Apply(s: State, step: Step): State
    requires Enabled(s, step)
  {
    match step
    case Tick(d) => s.(now := s.now + d)
    case Start => s.(started := true, flags := Clear)
    case Pause(createOk, ans) => ApplyPause(s, createOk, ans)
    case Resume(ans) => ApplyResume(s, ans)
    case StopBegin =>
      if s.flags.live then s.(flags := s.flags.(stopping := true), stop := Joining)
      else s.(started := false)
    case StopEnd =>
      s.(task := NoTask, stop := Idle, started := false, discarded := true,
         threads := s.threads.(joined := s.threads.joined + 1))
    case Wake(ans) => ApplyWake(s, ans)
  }

  // ------------------------------------------------------------------ invariants

  ghost predicate Threading(s: State) {
    && (s.flags.live <==> s.task.Sleeping?)
    && (!s.flags.live ==> s.flags == Clear)
    && (s.task.Ended? ==> s.stop.Joining?)
    && (s.flags.stopping ==> s.stop.Joining?)
    && (s.stop.Joining? ==> s.started && (s.task.Ended? || (s.task.Sleeping? && s.flags.stopping)))
    && (s.task.Sleeping? ==> s.started)
    && s.threads.created == s.threads.detached + s.threads.joined + (if s.task.NoTask? then 0 else 1)
  }

  ghost predicate Obedient(s: State) {
    && (s.flags.live ==> s.wanted == Some(s.flags.pausing))
    && (!s.hw.failed ==> s.hw.decoder == s.hw.stc == s.acted)
    && (s.task.NoTask? && s.wanted.Some? && !s.discarded ==> s.acted == s.wanted.value)
  }

  ghost predicate Timed(s: State) {
    && (s.flags.more ==> s.flags.pausing && s.armedAt == s.flags.lastPause <= s.now)
    && (s.flags.pausing && !s.flags.more ==> s.task.Sleeping? && s.task.until == s.armedAt + Window(s.found))
  }

  ghost predicate Inv(s: State) {
    Threading(s) && Obedient(s) && Timed(s)
  }

  lemma StepThreading(s: State, step: Step)
    requires Threading(s) && Enabled(s, step)
    ensures Threading(Apply(s, step))
  {
  }

  lemma StepObedient(s: State, step: Step)
    requires Threading(s) && Obedient(s) && Enabled(s, step)
    ensures Obedient(Apply(s, step))
  {
  }

  lemma StepTimed(s: State, step: Step)
    requires Threading(s) && Timed(s) && Enabled(s, step)
    ensures Timed(Apply(s, step))
  {
    if step.Wake? && s.flags.more { RearmedWindow(s.now - s.flags.lastPause); }
  }

  ghost predicate IsRun(states: seq<State>, steps: seq<Step>) {
    && |states| == |steps| + 1 && states[0] == Initial()
    && forall i :: 0 <= i < |steps| ==> Next(states[i], steps[i], states[i + 1])
  }

  ghost predicate Next(s: State, step: Step, s': State) {
    Enabled(s, step) && s' == Apply(s, step)
  }

  lemma {:induction false} RunInv(states: seq<State>, steps: seq<Step>, i: nat)
    requires IsRun(states, steps) && i < |states|
    ensures Inv(states[i])
  {
    if i > 0 {
      RunInv(states, steps, i - 1);
      var s, step := states[i - 1], steps[i - 1];
      assert Next(s, step, states[i]);
      StepThreading(s, step);
      StepObedient(s, step);
      StepTimed(s, step);
    }
  }

  // ------------------------------------------------------------------ theorems

  /** A pause reaches the hardware in the call itself exactly if there is no helper thread and none can
      be made; a resume, exactly if there is none. */
  lemma ActsAtOnce(s: State, createOk: bool, ans: Answers)
    requires ans.decoderOk && ans.stcOk
    ensures ApplyPause(s, createOk, ans).hw == if s.flags.live || createOk then s.hw else s.hw.(decoder := true, stc := true)
    ensures ApplyResume(s, ans).hw == if s.flags.live then s.hw else s.hw.(decoder := false, stc := false)
    ensures ApplyPause(s, createOk, ans).threads.created == s.threads.created + if !s.flags.live && createOk then 1 else 0
    ensures ApplyResume(s, ans).threads == s.threads
  {
  }

  /** Decoder and STC agree after a request carried out on agreeing ones exactly if the STC was set, or
      the decoder was not, or its rollback left it where the STC is.  A rollback sets the opposite of
      what was asked, which is not where a repeated request started from. */
  lemma DriveAgreesIff(hw: Hardware, pause: bool, ans: Answers)
    requires hw.decoder == hw.stc
    ensures var h := Drive(hw, pause, ans);
            h.decoder == h.stc <==> !ans.decoderOk || ans.stcOk || (hw.stc == pause) != ans.rollbackOk
  {
  }

  /** At most one helper thread is alive, and every one that ended was detached by itself or
      joined by a stop, never both. */
  lemma OneThread(states: seq<State>, steps: seq<Step>, i: nat)
    requires IsRun(states, steps) && i < |states|
    ensures var t := states[i].threads;
            t.created - t.detached - t.joined == if states[i].task.NoTask? then 0 else 1
    ensures states[i].stop.Joining? ==> !states[i].task.NoTask?
  {
    RunInv(states, steps, i);
  }

  /** A stop can always finish: once the helper thread's sleep is over, its next critical section
      ends it without detaching. */
  lemma StopCanJoin(states: seq<State>, steps: seq<Step>, i: nat, ans: Answers)
    requires IsRun(states, steps) && i < |states|
    requires states[i].stop.Joining? && Enabled(states[i], Wake(ans))
    ensures Enabled(Apply(states[i], Wake(ans)), StopEnd)
    ensures Apply(states[i], Wake(ans)).hw == states[i].hw
  {
    RunInv(states, steps, i);
  }

  /** Without a hardware failure decoder and STC always are both paused or both running, as the last
      request carried out asked.  With no helper thread alive that is what the last request asked
      exactly if no stop has joined the helper since, or the request before was the same. */
  lemma LastRequestWins(states: seq<State>, steps: seq<Step>, i: nat)
    requires IsRun(states, steps) && i < |states| && !states[i].hw.failed
    ensures states[i].hw.decoder == states[i].hw.stc == states[i].acted
    ensures states[i].task.NoTask? && states[i].wanted.Some? ==>
              (states[i].hw.decoder == states[i].wanted.value
               <==> !states[i].discarded || states[i].acted == states[i].wanted.value)
  {
    RunInv(states, steps, i);
  }

  /** A step after which the helper thread still lives, or has been joined, leaves the hardware alone. */
  lemma AliveIsQuiet(s: State, step: Step)
    requires Threading(s) && Enabled(s, step) && !s.task.NoTask?
    requires !Apply(s, step).task.NoTask? || step.StopEnd?
    ensures Apply(s, step).hw == s.hw && Apply(s, step).acted == s.acted
  {
  }

  /** While a helper thread lives, nothing changes the hardware: a stop that joins it leaves decoder
      and STC as they were when it was created, whatever was asked for in between. */
  lemma {:induction false} JoinedStopChangesNothing(states: seq<State>, steps: seq<Step>, i: nat, j: nat)
    requires IsRun(states, steps) && i <= j < |states| && forall k :: i <= k < j ==> !states[k].task.NoTask?
    requires !states[j].task.NoTask? || (i < j && steps[j - 1].StopEnd?)
    ensures states[j].hw == states[i].hw && states[j].acted == states[i].acted
  {
    if i < j {
      RunInv(states, steps, j - 1);
      assert Next(states[j - 1], steps[j - 1], states[j]);
      AliveIsQuiet(states[j - 1], steps[j - 1]);
      JoinedStopChangesNothing(states, steps, i, j - 1);
    }
  }

  /** A pause asked for last can thus be lost: the stop that follows leaves the hardware running. */
  lemma PauseLost() returns (states: seq<State>, steps: seq<Step>)
    ensures IsRun(states, steps)
    ensures var s := states[|steps|];
            s.task.NoTask? && !s.hw.failed && s.wanted == Some(true) && !s.hw.decoder && !s.hw.stc
  {
    var ok := Answers(true, true, true);
    steps := [Start, Pause(true, ok), StopBegin, Tick(WINDOW), Wake(ok), StopEnd];
    var s0 := Initial();
    var s1 := Apply(s0, Start);
    var s2 := Apply(s1, Pause(true, ok));
    var s3 := Apply(s2, StopBegin);
    var s4 := Apply(s3, Tick(WINDOW));
    var s5 := Apply(s4, Wake(ok));
    states := [s0, s1, s2, s3, s4, s5, Apply(s5, StopEnd)];
  }

  /** What the helper thread knows of the pause it is about to carry out: the newest pause if it has
      not slept for that one yet, otherwise what the last re-arming found. */
  function Knows(s: State): Option<nat> {
    if s.flags.more && s.now >= s.flags.lastPause then Some(s.now - s.flags.lastPause) else s.found
  }

  /** A deferred pause reaches the hardware only after more than 299 ms without a resume. */
  lemma PauseIsDeferred(states: seq<State>, steps: seq<Step>, i: nat)
    requires IsRun(states, steps) && i < |steps| && steps[i].Wake? && states[i].flags.pausing && !states[i].flags.stopping
    requires states[i + 1].task.NoTask?
    ensures states[i].now > states[i].armedAt + WINDOW - MS
  {
    RunInv(states, steps, i);
    assert Next(states[i], steps[i], states[i + 1]);
    if states[i].flags.more { RearmedWindow(states[i].now - states[i].flags.lastPause); }
    else if states[i].found.Some? { RearmedWindow(states[i].found.value); }
  }

  /** In every run, a pause that is carried out as soon as its sleep is over is carried out a full
      300 ms after it was asked for if and only if the window was not re-armed, or was re-armed a
      whole number of milliseconds after the pause or past the window. */
  lemma FullWindowIff(states: seq<State>, steps: seq<Step>, i: nat)
    requires IsRun(states, steps) && i < |steps| && steps[i].Wake? && states[i].flags.pausing && !states[i].flags.stopping
    requires states[i + 1].task.NoTask? && states[i].now == states[i].task.until
    ensures states[i].now >= states[i].armedAt + WINDOW <==> Exact(Knows(states[i]))
  {
    RunInv(states, steps, i);
    assert Next(states[i], steps[i], states[i + 1]);
    if Knows(states[i]).Some? { RearmedWindow(Knows(states[i]).value); }
  }

  /** The full window is not kept: re-armed one nanosecond before the first sleep ends, a pause
      reaches the hardware 299 ms and one nanosecond later. */
  lemma WindowFallsShort() returns (states: seq<State>, steps: seq<Step>)
    ensures IsRun(states, steps)
    ensures var s := states[|steps|];
            s.task.NoTask? && s.hw.decoder && s.now - s.armedAt == WINDOW - MS + 1
  {
    var ok := Answers(true, true, true);
    steps := [Start, Pause(true, ok), Resume(ok), Tick(WINDOW - 1), Pause(true, ok), Tick(1), Wake(ok),
              Tick(WINDOW - MS), Wake(ok)];
    var s0 := Initial();
    var s1 := Apply(s0, Start);
    var s2 := Apply(s1, Pause(true, ok));
    var s3 := Apply(s2, Resume(ok));
    var s4 := Apply(s3, Tick(WINDOW - 1));
    var s5 := Apply(s4, Pause(true, ok));
    var s6 := Apply(s5, Tick(1));
    var s7 := Apply(s6, Wake(ok));
    assert MoreSleep(1) == WINDOW - MS;
    var s8 := Apply(s7, Tick(WINDOW - MS));
    var s9 := Apply(s8, Wake(ok));
    states := [s0, s1, s2, s3, s4, s5, s6, s7, s8, s9];
  }
}
