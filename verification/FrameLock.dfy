/** The cross-process lock on a buffer's video frame, and the destriping it protects.

    Any number of processes lock a YV12 buffer for the CPU while the decoder installs and takes
    back the striped surface of the frame.  The lock is a word in shared memory taken by
    compare-and-swap with a deadline. */
module FrameLock {
  import opened Common

  type Pid = nat

  /** What a process wants the lock for: a CPU lock with its usage bits, or the decoder
      installing or taking back a surface. */
  datatype Op = CpuLock(write: bool, read: bool) | Install | Retract

  datatype Phase =
    | Idle
    | Spinning(op: Op)
    | Holding(op: Op)
    | Destriping(surface: nat)
    | Destriped(surface: nat)
    | Releasing

  /** `word` is videoFrame.locked; every installed surface gets the next number; `done` lists the
      surfaces destriped, in order. */
  datatype State = State(word: int, procs: map<Pid, Phase>, installed: Option<nat>, complete: bool,
                         next: nat, done: seq<nat>)

  datatype Step =
    | Begin(p: Pid, op: Op)
    | Exchange(p: Pid)
    | GiveUp(p: Pid)
    | Act(p: Pid)
    | DestripeEnds(p: Pid, ok: bool)
    | MarkComplete(p: Pid)
    | Release(p: Pid)
    /** a release that cannot map the shared block returns without an exchange */
    | ReleaseUnmapped(p: Pid)

  function Initial(): State {
    State(0, map[], None, false, 0, [])
  }

  function At(s: State, p: Pid): Phase {
    if p in s.procs then s.procs[p] else Idle
  }

  /** android_atomic_acquire_cas and android_atomic_release_cas: zero means the exchange happened. */
  function CasResult(expected: int, word: int): int {
    if word == expected then 0 else 1
  }

  predicate Enabled(s: State, step: Step) {
    match step
    case Begin(p, _) => At(s, p).Idle?
    case Exchange(p) => At(s, p).Spinning?
    case GiveUp(p) => At(s, p).Spinning?
    case Act(p) => At(s, p).Holding?
    case DestripeEnds(p, _) => At(s, p).Destriping?
    case MarkComplete(p) => At(s, p).Destriped?
    case Release(p) => At(s, p).Releasing?
    case ReleaseUnmapped(p) => At(s, p).Releasing?
  }

  /** What the holder does with the frame, up to its next visible action. */
  function ApplyAct(s: State, p: Pid, op: Op): State {
    match op
    case Install => s.(installed := Some(s.next), next := s.next + 1, complete := false, procs := s.procs[p := Releasing])
    case Retract => s.(installed := None, procs := s.procs[p := Releasing])
    case CpuLock(write, read) =>
      if s.installed.Some? && !write && read && !s.complete
      then s.(procs := s.procs[p := Destriping(s.installed.value)])
      else s.(procs := s.procs[p := Releasing])
  }

  function Apply(s: State, step: Step): State
    requires Enabled(s, step)
  {
    match step
    case Begin(p, op) => s.(procs := s.procs[p := Spinning(op)])
    case Exchange(p) =>
      if CasResult(0, s.word) == 0 then s.(word := 1, procs := s.procs[p := Holding(At(s, p).op)]) else s
    case GiveUp(p) =>
      // A decoder that times out taking its surface back clears it without the lock.
      s.(installed := if At(s, p).op.Retract? then None else s.installed, procs := s.procs[p := Idle])
    case Act(p) => ApplyAct(s, p, At(s, p).op)
    case DestripeEnds(p, ok) =>
      var g := At(s, p).surface;
      if ok then s.(done := s.done + [g], procs := s.procs[p := Destriped(g)]) else s.(procs := s.procs[p := Releasing])
    case MarkComplete(p) => s.(complete := true, procs := s.procs[p := Releasing])
    case Release(p) => s.(word := if CasResult(1, s.word) == 0 then 0 else s.word, procs := s.procs[p := Idle])
    case ReleaseUnmapped(p) => s.(procs := s.procs[p := Idle])
  }

  // ------------------------------------------------------------------ invariants

  predicate Inside(f: Phase) {
    f.Holding? || f.Destriping? || f.Destriped? || f.Releasing?
  }

  ghost predicate NobodyInside(s: State) {
    forall p :: p in s.procs ==> !Inside(s.procs[p])
  }

  ghost predicate Exclusive(s: State) {
    && (s.word == 0 || s.word == 1)
    && (s.word == 0 ==> NobodyInside(s))
    && (forall p, q :: p in s.procs && q in s.procs && Inside(s.procs[p]) && Inside(s.procs[q]) ==> p == q)
  }

  /** Surfaces destriped so far are distinct, and all were installed. */
  ghost predicate Numbered(s: State) {
    && Distinct(s.done)
    && (forall g :: g in s.done ==> g < s.next)
    && (s.installed.Some? ==> s.installed.value < s.next)
  }

  /** The installed surface has been destriped exactly if it is marked complete or about to be. */
  ghost predicate Marked(s: State) {
    s.installed.Some? ==>
      && (s.complete ==> s.installed.value in s.done)
      && (s.installed.value in s.done && !s.complete ==> exists p :: p in s.procs && s.procs[p].Destriped?)
  }

  /** What a process in the middle of a destripe can rely on. */
  ghost predicate MidDestripe(s: State, f: Phase) {
    && (f.Destriping? ==> f.surface !in s.done && f.surface < s.next && !s.complete)
    && (f.Destriped? ==> f.surface in s.done)
    && ((f.Destriping? || f.Destriped?) && s.installed.Some? ==> s.installed.value == f.surface)
  }

  ghost predicate AllMid(s: State) {
    forall p :: p in s.procs ==> MidDestripe(s, s.procs[p])
  }

  ghost predicate Inv(s: State) {
    Exclusive(s) && Numbered(s) && Marked(s) && AllMid(s)
  }

  lemma StepExclusive(s: State, step: Step)
    requires Exclusive(s) && Enabled(s, step)
    ensures Exclusive(Apply(s, step))
  {
  }

  lemma StepNumbered(s: State, step: Step)
    requires Inv(s) && Enabled(s, step)
    ensures Numbered(Apply(s, step))
  {
    if step.DestripeEnds? { assert MidDestripe(s, s.procs[step.p]); }
  }

  /** While a process is inside, no other one is. */
  lemma Alone(s: State, p: Pid, q: Pid)
    requires Exclusive(s) && Inside(At(s, p)) && q in s.procs && q != p
    ensures !Inside(s.procs[q])
  {
  }

  lemma StepMarked(s: State, step: Step)
    requires Inv(s) && Enabled(s, step)
    ensures Marked(Apply(s, step))
  {
    var s', p := Apply(s, step), step.p;
    if p in s.procs { assert MidDestripe(s, s.procs[p]); }
    if s.installed.Some? && s.installed.value in s.done && !s.complete {
      var q :| q in s.procs && s.procs[q].Destriped?;
      if q != p {
        if Inside(At(s, p)) { Alone(s, p, q); }
        assert s'.procs[q].Destriped?;
      }
    }
    if step.DestripeEnds? && step.ok { assert s'.procs[p].Destriped?; }
  }

  lemma StepMid(s: State, step: Step, q: Pid)
    requires Inv(s) && Enabled(s, step) && q in Apply(s, step).procs
    ensures MidDestripe(Apply(s, step), Apply(s, step).procs[q])
  {
    if q in s.procs {
      assert MidDestripe(s, s.procs[q]);
      if q != step.p && Inside(At(s, step.p)) { Alone(s, step.p, q); }
    }
    if step.Act? && q == step.p { ActMid(s, q); }
  }

  /** A process that finds the surface not complete starts on one not destriped before. */
  lemma ActMid(s: State, p: Pid)
    requires Inv(s) && Enabled(s, Act(p))
    ensures MidDestripe(Apply(s, Act(p)), Apply(s, Act(p)).procs[p])
  {
    forall q | q in s.procs ensures !s.procs[q].Destriped? {
      if q != p { Alone(s, p, q); }
    }
  }

  ghost predicate IsRun(states: seq<State>, steps: seq<Step>) {
    && |states| == |steps| + 1 && states[0] == Initial()
    && forall i :: 0 <= i < |steps| ==> Next(states[i], steps[i], states[i + 1])
  }

  ghost predicate Next(s: State, step: Step, s': State) {
    Enabled(s, step) && s' == Apply(s, step)
  }

  lemma {:induction false} RunInv(states: seq<State>, steps: seq<Step>, i: nat)
    requires IsRun(states, steps) && i < |states|
    ensures Inv(states[i])
  {
    if i > 0 {
      RunInv(states, steps, i - 1);
      assert Next(states[i - 1], steps[i - 1], states[i]);
      StepExclusive(states[i - 1], steps[i - 1]);
      StepNumbered(states[i - 1], steps[i - 1]);
      StepMarked(states[i - 1], steps[i - 1]);
      forall q | q in states[i].procs ensures MidDestripe(states[i], states[i].procs[q]) {
        StepMid(states[i - 1], steps[i - 1], q);
      }
    }
  }

  // ------------------------------------------------------------------ theorems

  /** At most one process is between acquire and release. */
  lemma MutualExclusion(states: seq<State>, steps: seq<Step>, i: nat, p: Pid, q: Pid)
    requires IsRun(states, steps) && i < |states|
    requires Inside(At(states[i], p)) && Inside(At(states[i], q))
    ensures p == q && states[i].word == 1
  {
    RunInv(states, steps, i);
  }

  /** Every release that makes its exchange finds the word at one, so it succeeds and frees the lock.
      The call then returns zero: the assertion that follows it in the source demands the opposite. */
  lemma ReleaseFindsOne(states: seq<State>, steps: seq<Step>, i: nat)
    requires IsRun(states, steps) && i < |steps| && steps[i].Release?
    ensures states[i].word == 1 && states[i + 1].word == 0 && CasResult(1, states[i].word) == 0
    ensures NobodyInside(states[i + 1])
  {
    RunInv(states, steps, i);
    assert Next(states[i], steps[i], states[i + 1]);
    assert Inside(states[i].procs[steps[i].p]);
  }

  /** The word is taken and nobody is inside to free it. */
  ghost predicate Stuck(s: State) {
    s.word == 1 && NobodyInside(s)
  }

  lemma StepStuck(s: State, step: Step)
    requires Exclusive(s) && Enabled(s, step)
    ensures Stuck(Apply(s, step)) <==> Stuck(s) || step.ReleaseUnmapped?
  {
    var p := step.p;
    if p in s.procs && Inside(s.procs[p]) {
      assert forall q :: q in s.procs && q != p ==> !Inside(s.procs[q]);
      if Inside(At(Apply(s, step), p)) { assert Inside(Apply(s, step).procs[p]); }
    }
    if step.Exchange? && s.word == 0 { assert Inside(Apply(s, step).procs[p]); }
    if !NobodyInside(s) && !(p in s.procs && Inside(s.procs[p])) {
      var q :| q in s.procs && Inside(s.procs[q]);
      assert Inside(Apply(s, step).procs[q]);
    }
  }

  /** Exactly when the lock is lost: some earlier release could not map the shared block. */
  lemma {:induction false} StuckIffUnmapped(states: seq<State>, steps: seq<Step>, i: nat)
    requires IsRun(states, steps) && i < |states|
    ensures Stuck(states[i]) <==> exists j :: 0 <= j < i && steps[j].ReleaseUnmapped?
  {
    if i > 0 {
      StuckIffUnmapped(states, steps, i - 1);
      RunInv(states, steps, i - 1);
      assert Next(states[i - 1], steps[i - 1], states[i]);
      StepStuck(states[i - 1], steps[i - 1]);
    }
  }

  /** After such a release no process is ever inside again. */
  lemma LeakedForEver(states: seq<State>, steps: seq<Step>, j: nat, i: nat, p: Pid)
    requires IsRun(states, steps) && j < i < |states| && steps[j].ReleaseUnmapped?
    ensures states[i].word == 1 && !Inside(At(states[i], p))
  {
    StuckIffUnmapped(states, steps, i);
  }

  /** How often process `p` has taken the lock in the first `i` steps. */
  ghost function Taken(states: seq<State>, steps: seq<Step>, p: Pid, i: nat): nat
    requires |states| == |steps| + 1 && i <= |steps|
  {
    if i == 0 then 0
    else Taken(states, steps, p, i - 1) +
         if steps[i - 1] == Exchange(p) && CasResult(0, states[i - 1].word) == 0 then 1 else 0
  }

  /** How often a step occurs among the first `i`. */
  ghost function Times(steps: seq<Step>, step: Step, i: nat): nat
    requires i <= |steps|
  {
    if i == 0 then 0 else Times(steps, step, i - 1) + if steps[i - 1] == step then 1 else 0
  }

  /** Every acquisition is followed by exactly one call to release, on every path; it frees the lock
      exactly if it could map the shared block. */
  lemma {:induction false} ReleasesOncePerAcquire(states: seq<State>, steps: seq<Step>, p: Pid, i: nat)
    requires IsRun(states, steps) && i <= |steps|
    ensures Taken(states, steps, p, i) == Times(steps, Release(p), i) + Times(steps, ReleaseUnmapped(p), i)
                                          + if Inside(At(states[i], p)) then 1 else 0
  {
    if i > 0 {
      ReleasesOncePerAcquire(states, steps, p, i - 1);
      assert Next(states[i - 1], steps[i - 1], states[i]);
    }
  }

  /** In a whole run at most one acquisition is not given back. */
  lemma LeaksOnce(states: seq<State>, steps: seq<Step>, j: nat, k: nat)
    requires IsRun(states, steps) && j < |steps| && k < |steps| && steps[j].ReleaseUnmapped? && steps[k].ReleaseUnmapped?
    ensures j == k
  {
    assert Next(states[k], steps[k], states[k + 1]) && Next(states[j], steps[j], states[j + 1]);
    if j < k { LeakedForEver(states, steps, j, k, steps[k].p); }
    if k < j { LeakedForEver(states, steps, k, j, steps[j].p); }
  }

  /** No installed surface is destriped twice, even when the decoder takes it back unlocked; and
      a surface marked complete has been destriped. */
  lemma DestripedOnce(states: seq<State>, steps: seq<Step>, i: nat)
    requires IsRun(states, steps) && i < |states|
    ensures forall g :: multiset(states[i].done)[g] <= 1
    ensures states[i].complete && states[i].installed.Some? ==> states[i].installed.value in states[i].done
  {
    RunInv(states, steps, i);
    forall g ensures multiset(states[i].done)[g] <= 1 { DistinctOnce(states[i].done, g); }
  }

  // ------------------------------------------------------------------ what a lock achieves

  /** An exchange takes the lock exactly if the word is zero, so a free lock is never refused. */
  lemma ExchangeTakesIff(states: seq<State>, steps: seq<Step>, i: nat)
    requires IsRun(states, steps) && i < |steps| && steps[i].Exchange?
    ensures At(states[i + 1], steps[i].p).Holding? <==> states[i].word == 0
    ensures states[i].word == 0 ==> states[i + 1].word == 1
  {
    RunInv(states, steps, i);
    assert Next(states[i], steps[i], states[i + 1]);
  }

  /** Process `p` has acted on lock request `op` at step `i` and goes on to let the lock go at step
      `j`, for the first time. */
  ghost predicate Episode(states: seq<State>, steps: seq<Step>, p: Pid, op: Op, i: nat, j: nat) {
    && IsRun(states, steps) && i < j < |steps|
    && steps[i] == Act(p) && At(states[i], p) == Holding(op)
    && (steps[j] == Release(p) || steps[j] == ReleaseUnmapped(p))
    && forall k :: i < k < j ==> steps[k] != Release(p) && steps[k] != ReleaseUnmapped(p)
  }

  /** The surface is destriped already, or its destripe is under way in `p`'s hands. */
  ghost predicate Bound(s: State, p: Pid, g: nat) {
    g in s.done || At(s, p) == Destriping(g)
  }

  lemma ReadActs(s: State, p: Pid)
    requires Inv(s) && Enabled(s, Act(p)) && At(s, p) == Holding(CpuLock(false, true)) && s.installed.Some?
    ensures Bound(Apply(s, Act(p)), p, s.installed.value)
  {
  }

  lemma BoundStays(s: State, step: Step, p: Pid, g: nat)
    requires Bound(s, p, g) && Enabled(s, step) && step != DestripeEnds(p, false)
    ensures Bound(Apply(s, step), p, g)
  {
  }

  /** What a reader is promised: with a striped surface installed when it acts and no failed destripe
      since, that surface is destriped by the time it lets the lock go, and marked complete if it still
      is the current one. */
  lemma {:induction false} ReaderSeesDestriped(states: seq<State>, steps: seq<Step>, p: Pid, i: nat, j: nat)
    requires Episode(states, steps, p, CpuLock(false, true), i, j) && states[i].installed.Some?
    requires forall k :: i < k < j ==> steps[k] != DestripeEnds(p, false)
    ensures states[i].installed.value in states[j].done
    ensures states[j].installed == states[i].installed ==> states[j].complete
  {
    RunInv(states, steps, j);
    RunInv(states, steps, i);
    assert Next(states[i], steps[i], states[i + 1]);
    ReadActs(states[i], p);
    BoundUntil(states, steps, p, states[i].installed.value, i + 1, j);
    assert Next(states[j], steps[j], states[j + 1]);
    forall q | q in states[j].procs ensures !states[j].procs[q].Destriped? {
      if q != p { Alone(states[j], p, q); }
    }
  }

  lemma {:induction false} BoundUntil(states: seq<State>, steps: seq<Step>, p: Pid, g: nat, i: nat, j: nat)
    requires IsRun(states, steps) && i <= j < |states| && Bound(states[i], p, g)
    requires forall k :: i <= k < j ==> steps[k] != DestripeEnds(p, false)
    ensures Bound(states[j], p, g)
    decreases j
  {
    if i < j {
      BoundUntil(states, steps, p, g, i, j - 1);
      assert Next(states[j - 1], steps[j - 1], states[j]);
      BoundStays(states[j - 1], steps[j - 1], p, g);
    }
  }

  /** A lock for writing, or for neither, goes straight to its release: it never destripes and leaves
      the frame as it is. */
  lemma OthersLeaveFrame(states: seq<State>, steps: seq<Step>, p: Pid, i: nat)
    requires IsRun(states, steps) && i < |steps| && steps[i] == Act(p) && At(states[i], p).Holding?
    requires At(states[i], p).op.CpuLock? && (At(states[i], p).op.write || !At(states[i], p).op.read)
    ensures At(states[i + 1], p) == Releasing
    ensures states[i + 1] == states[i].(procs := states[i + 1].procs)
  {
    assert Next(states[i], steps[i], states[i + 1]);
  }

  /** A reader starts to destripe exactly if a surface is installed that is not marked complete. */
  lemma ReaderDestripesIff(states: seq<State>, steps: seq<Step>, p: Pid, i: nat)
    requires IsRun(states, steps) && i < |steps| && steps[i] == Act(p) && At(states[i], p) == Holding(CpuLock(false, true))
    ensures At(states[i + 1], p).Destriping? <==> states[i].installed.Some? && !states[i].complete
    ensures At(states[i + 1], p).Destriping? ==> states[i].installed == Some(At(states[i + 1], p).surface)
  {
    assert Next(states[i], steps[i], states[i + 1]);
  }

  /** Installing makes a surface that was never destriped the current one, not complete; taking it
      back leaves none. */
  lemma DecoderSetsFrame(states: seq<State>, steps: seq<Step>, p: Pid, i: nat)
    requires IsRun(states, steps) && i < |steps| && steps[i] == Act(p) && At(states[i], p).Holding?
    ensures At(states[i], p).op.Install? ==>
              states[i + 1].installed.Some? && states[i + 1].installed.value !in states[i + 1].done && !states[i + 1].complete
    ensures At(states[i], p).op.Retract? ==> states[i + 1].installed.None?
  {
    RunInv(states, steps, i);
    assert Next(states[i], steps[i], states[i + 1]);
  }

  // ------------------------------------------------------------------ the deadline

  const NSEC_PER_SEC: nat := 1_000_000_000

  datatype Timespec = Timespec(sec: nat, nsec: nat) {
    predicate Normal() { nsec < NSEC_PER_SEC }
    function Nanos(): nat { sec * NSEC_PER_SEC + nsec }
  }

  /** The absolute end of a wait of `timeoutMs` milliseconds. */
  function Deadline(start: Timespec, timeoutMs: nat): (end: Timespec)
    requires start.Normal()
    ensures end.Normal() && end.Nanos() == start.Nanos() + timeoutMs * 1_000_000
  {
    var sec, nsec := start.sec + timeoutMs / 1000, start.nsec + timeoutMs % 1000 * 1_000_000;
    if nsec >= NSEC_PER_SEC then Timespec(sec + 1, nsec - NSEC_PER_SEC) else Timespec(sec, nsec)
  }

  /** The field-by-field test that ends the spin loop. */
  predicate Expired(now: Timespec, end: Timespec) {
    !(now.sec < end.sec) && (now.sec > end.sec || now.nsec > end.nsec)
  }

  /** The spin loop gives up exactly when more than the timeout has passed: at the deadline itself
      it still tries again. */
  lemma ExpiresAfterTimeout(start: Timespec, timeoutMs: nat, now: Timespec)
    requires start.Normal() && now.Normal()
    ensures Expired(now, Deadline(start, timeoutMs)) <==> now.Nanos() > start.Nanos() + timeoutMs * 1_000_000
  {
    var end := Deadline(start, timeoutMs);
    if now.sec > end.sec { assert now.sec * NSEC_PER_SEC >= (end.sec + 1) * NSEC_PER_SEC; }
    if now.sec < end.sec { assert end.sec * NSEC_PER_SEC >= (now.sec + 1) * NSEC_PER_SEC; }
  }

  /** The spin loop.  `words` are the lock words successive exchanges find, `clock` the times read
      after each of them that fails; time does not stand still for ever.

      The lock is taken at the first exchange that finds zero, and given up at the first failure
      seen after the deadline: never before the timeout has passed, and never after an exchange
      that succeeded. */
  method LockVideoFrame(start: Timespec, timeoutMs: nat, words: seq<int>, clock: seq<Timespec>)
    returns (busy: bool, tries: nat)
    requires start.Normal() && |words| == |clock| > 0 && forall i :: 0 <= i < |clock| ==> clock[i].Normal()
    requires clock[|clock| - 1].Nanos() > start.Nanos() + timeoutMs * 1_000_000
    ensures 1 <= tries <= |words|
    ensures busy <==> CasResult(0, words[tries - 1]) != 0
    ensures busy ==> clock[tries - 1].Nanos() > start.Nanos() + timeoutMs * 1_000_000
    ensures forall k :: 0 <= k < tries - 1 ==>
              CasResult(0, words[k]) != 0 && clock[k].Nanos() <= start.Nanos() + timeoutMs * 1_000_000
  {
    var end := Deadline(start, timeoutMs);
    tries := 0;
    ExpiresAfterTimeout(start, timeoutMs, clock[|clock| - 1]);
    while CasResult(0, words[tries]) != 0
      invariant 0 <= tries < |words|
      invariant forall k :: 0 <= k < tries ==>
                  CasResult(0, words[k]) != 0 && clock[k].Nanos() <= start.Nanos() + timeoutMs * 1_000_000
      decreases |words| - tries
    {
      var now := clock[tries];
      ExpiresAfterTimeout(start, timeoutMs, now);
      if Expired(now, end) { return true, tries + 1; }
      tries := tries + 1;
    }
    return false, tries + 1;
  }
}
