/** Back-pressure between set calls and the composer thread: three binary auto-reset events.

    `kick` wakes the composer, `forced` releases a throttled set call, `sync` releases a set call
    on platforms without fences.  Setting an event that is already set is lost: that is what
    makes the bounds below worth proving. */
module Handshake {

  /** HWC_SET_COMP_THRESHOLD. */
  const COMP_THRESHOLD: nat := 1

  datatype Setter = Returned | Called | Queued(oob: bool) | Kicked(oob: bool) | AwaitForced | AwaitSync

  datatype Composer = Top | Asleep | Draining | Composing(force: bool) | Drained

  datatype State = State(
    fences: bool, power: bool, setter: Setter, composer: Composer,
    kick: bool, forced: bool, sync: bool, n: Counts, oobSeen: bool)

  /** The call statistics, the length of the work list, and the set calls that queued nothing. */
  datatype Counts = Counts(setCall: nat, composed: nat, queued: nat, skipped: nat)

  datatype Step = Call | Skip | Enqueue(oob: bool) | Kick | Test | WakeForced | WakeSync | SetPower(on: bool) | Compose

  function Initial(fences: bool): State {
    State(fences, true, Returned, Top, false, false, false, Counts(0, 0, 0, 0), false)
  }

  predicate Enabled(s: State, step: Step) {
    match step
    case Call => s.setter.Returned? && s.power
    case Skip => s.setter.Returned? && !s.power
    case Enqueue(_) => s.setter.Called?
    case Kick => s.setter.Queued?
    case Test => s.setter.Kicked?
    case WakeForced => s.setter.AwaitForced? && s.forced
    case WakeSync => s.setter.AwaitSync? && s.sync
    case SetPower(_) => true
    case Compose => ComposerReady(s)
  }

  /** The composer sleeps while the display is off, and waits for a kick at the top of its loop. */
  predicate ComposerReady(s: State) {
    match s.composer
    case Top => s.power
    case Asleep => s.kick
    case _ => true
  }

  /** The test that throttles a set call.  The conditional expression of the source groups as
      (setCall >= composed + threshold + oob) ? 2 : 0, so the inline delay is never added. */
  predicate Throttled(s: State, oob: bool) {
    s.n.setCall >= s.n.composed + COMP_THRESHOLD + (if oob then 1 else 0)
  }

  /** The locked part of the drain loop: take a frame, and note whether a set call is throttled. */
  function TryPop(s: State): (s': State) {
    if s.n.queued == 0 then s.(composer := if s.fences then Top else Drained)
    else s.(n := s.n.(queued := s.n.queued - 1, composed := s.n.composed + 1),
            composer := Composing(s.n.setCall >= s.n.composed + COMP_THRESHOLD))
  }

  function ComposerStep(s: State): (s': State)
    requires ComposerReady(s)
  {
    match s.composer
    case Top => s.(composer := Asleep)
    case Asleep => s.(composer := Draining, kick := false)
    case Draining => TryPop(s)
    case Composing(force) => s.(composer := Draining, forced := s.forced || force)
    case Drained => s.(composer := Top, sync := true)
  }

  function Apply(s: State, step: Step): (s': State)
    requires Enabled(s, step)
  {
    match step
    case Call => s.(setter := Called, n := s.n.(setCall := s.n.setCall + 1))
    case Skip => s.(n := s.n.(setCall := s.n.setCall + 1, skipped := s.n.skipped + 1))
    case Enqueue(oob) => s.(setter := Queued(s.fences && oob), n := s.n.(queued := s.n.queued + 1),
                            oobSeen := s.oobSeen || (s.fences && oob))
    case Kick => s.(kick := true, setter := if s.fences then Kicked(s.setter.oob) else AwaitSync)
    case Test => s.(setter := if Throttled(s, s.setter.oob) then AwaitForced else Returned)
    case WakeForced => s.(forced := false, setter := Returned)
    case WakeSync => s.(sync := false, setter := Returned)
    case SetPower(on) => s.(power := on)
    case Compose => ComposerStep(s)
  }

  // ------------------------------------------------------------------ invariants

  /** Frames waiting, plus a latched release, plus a release about to be signalled. */
  function Backlog(s: State): nat {
    s.n.queued + (if s.forced then 1 else 0) + (if s.composer.Composing? && s.composer.force then 1 else 0)
  }

  /** A set call that has queued its frame and not returned. */
  predicate InSet(s: State) {
    s.setter.Queued? || s.setter.Kicked? || s.setter.AwaitForced? || s.setter.AwaitSync?
  }

  /** What the backlog may reach: one more during a set call, and one more again once a set call
      has signalled a video frame inline. */
  function Limit(s: State): nat {
    if InSet(s) then (if s.oobSeen then 4 else 3) else (if s.oobSeen then 3 else 2)
  }

  ghost predicate Counted(s: State) {
    && s.n.setCall == s.n.composed + s.n.queued + s.n.skipped + (if s.setter.Called? then 1 else 0)
    && (s.composer.Composing? ==> s.composer.force)
    && (s.setter.Queued? || s.setter.Kicked? ==> s.setter.oob ==> s.oobSeen)
  }

  /** No lost wake-up: a queued frame has a kick, a draining composer or a setter about to kick. */
  ghost predicate Woken(s: State) {
    s.n.queued > 0 ==> s.kick || s.composer.Draining? || s.composer.Composing? || s.setter.Queued?
  }

  ghost predicate Bounded(s: State) {
    && !s.setter.AwaitSync? && !s.composer.Drained?
    && Backlog(s) <= Limit(s)
    && (InSet(s) ==> Backlog(s) >= 1)
  }

  /** Without fences the two threads alternate strictly. */
  ghost predicate Alternating(s: State) {
    && !s.setter.Kicked? && !s.setter.AwaitForced?
    && (!s.setter.AwaitSync? ==>
          && (s.composer.Top? || s.composer.Asleep?) && !s.kick && !s.sync
          && s.n.queued == (if s.setter.Queued? then 1 else 0))
    && (s.setter.AwaitSync? ==>
          match s.composer
          case Top => s.sync == !s.kick && s.n.queued == (if s.kick then 1 else 0)
          case Asleep => s.sync == !s.kick && s.n.queued == (if s.kick then 1 else 0)
          case Draining => !s.kick && !s.sync && s.n.queued <= 1
          case Composing(_) => !s.kick && !s.sync && s.n.queued == 0
          case Drained => !s.kick && !s.sync && s.n.queued == 0)
  }

  ghost predicate Inv(s: State) {
    && Counted(s) && Woken(s)
    && if s.fences then Bounded(s) else Alternating(s)
  }

  lemma StepInv(s: State, step: Step)
    requires Inv(s) && Enabled(s, step)
    ensures Inv(Apply(s, step))
  {
    if step.Compose? { ComposerInv(s); } else { SetterInv(s, step); }
  }

  lemma ComposerInv(s: State)
    requires Inv(s) && ComposerReady(s)
    ensures Inv(ComposerStep(s))
  {
    ComposerCounts(s);
    ComposerWakes(s);
    if s.fences { ComposerBounded(s); } else { ComposerAlternates(s); }
  }

  lemma ComposerCounts(s: State)
    requires Counted(s) && ComposerReady(s)
    ensures Counted(ComposerStep(s))
  {
    if s.composer.Draining? { PopCounts(s); }
  }

  lemma PopCounts(s: State)
    requires Counted(s) && s.composer.Draining?
    ensures Counted(TryPop(s))
  {
    if s.n.queued > 0 {
      assert s.n.setCall >= s.n.composed + COMP_THRESHOLD;
      assert TryPop(s).n == Counts(s.n.setCall, s.n.composed + 1, s.n.queued - 1, s.n.skipped);
    }
  }

  lemma ComposerWakes(s: State)
    requires Woken(s) && ComposerReady(s) && (s.composer.Drained? ==> s.n.queued == 0)
    ensures Woken(ComposerStep(s))
  {
  }

  lemma ComposerBounded(s: State)
    requires Counted(s) && Bounded(s) && s.fences && ComposerReady(s)
    ensures Bounded(ComposerStep(s))
  {
  }

  lemma ComposerAlternates(s: State)
    requires Counted(s) && Alternating(s) && !s.fences && ComposerReady(s)
    ensures Alternating(ComposerStep(s))
  {
  }

  lemma SetterInv(s: State, step: Step)
    requires Inv(s) && Enabled(s, step) && !step.Compose?
    ensures Inv(Apply(s, step))
  {
    SetterCounts(s, step);
    SetterWakes(s, step);
    if s.fences { SetterBounded(s, step); } else { SetterAlternates(s, step); }
  }

  lemma SetterCounts(s: State, step: Step)
    requires Counted(s) && Enabled(s, step) && !step.Compose?
    ensures Counted(Apply(s, step))
  {
  }

  lemma SetterWakes(s: State, step: Step)
    requires Woken(s) && Enabled(s, step) && !step.Compose?
    ensures Woken(Apply(s, step))
  {
  }

  lemma SetterBounded(s: State, step: Step)
    requires Counted(s) && Bounded(s) && s.fences && Enabled(s, step) && !step.Compose?
    ensures Bounded(Apply(s, step))
  {
    match step
    case Test =>
    case _ =>
  }

  lemma SetterAlternates(s: State, step: Step)
    requires Counted(s) && Alternating(s) && !s.fences && Enabled(s, step) && !step.Compose?
    ensures Alternating(Apply(s, step))
  {
  }

  /** A run: any interleaving of set calls, power changes and composer steps. */
  ghost predicate IsRun(fences: bool, states: seq<State>, steps: seq<Step>) {
    && |states| == |steps| + 1 && states[0] == Initial(fences)
    && forall i :: 0 <= i < |steps| ==> Next(states[i], steps[i], states[i + 1])
  }

  ghost predicate Next(s: State, step: Step, s': State) {
    Enabled(s, step) && s' == Apply(s, step)
  }

  lemma InitialInv(fences: bool)
    ensures Inv(Initial(fences))
  {
    assert Counted(Initial(fences)) && Woken(Initial(fences));
    InitialBounded();
    InitialAlternating();
  }

  lemma InitialBounded()
    ensures Bounded(Initial(true))
  {
    assert Backlog(Initial(true)) == 0;
  }

  lemma InitialAlternating()
    ensures Alternating(Initial(false))
  {
  }

  lemma NextInv(s: State, step: Step, s': State)
    requires Inv(s) && Next(s, step, s')
    ensures Inv(s') && s'.fences == s.fences
  {
    StepInv(s, step);
  }

  lemma {:induction false} RunInv(fences: bool, states: seq<State>, steps: seq<Step>, i: nat)
    requires IsRun(fences, states, steps) && i < |states|
    ensures Inv(states[i]) && states[i].fences == fences
  {
    if i == 0 {
      InitialInv(fences);
    } else {
      RunInv(fences, states, steps, i - 1);
      NextInv(states[i - 1], steps[i - 1], states[i]);
    }
  }

  // ------------------------------------------------------------------ theorems

  /** With fences the backlog never exceeds 2 between set calls and 3 during one, one more of
      each once a set call has signalled a video frame inline; skipped set calls included. */
  lemma BackPressure(states: seq<State>, steps: seq<Step>, i: nat)
    requires IsRun(true, states, steps) && i < |states|
    ensures states[i].n.queued <= Backlog(states[i]) <= Limit(states[i])
  {
    RunInv(true, states, steps, i);
  }

  /** In either mode no queued frame is ever stranded. */
  lemma NeverStranded(fences: bool, states: seq<State>, steps: seq<Step>, i: nat)
    requires IsRun(fences, states, steps) && i < |states| && states[i].n.queued > 0
    ensures states[i].kick || states[i].composer.Draining? || states[i].composer.Composing? || states[i].setter.Queued?
  {
    RunInv(fences, states, steps, i);
  }

  /** Without fences a set call that returns has seen every queued frame, its own included,
      composed to the end. */
  lemma SetReturnsComposed(states: seq<State>, steps: seq<Step>, i: nat)
    requires IsRun(false, states, steps) && i < |steps| && steps[i].WakeSync?
    ensures var s := states[i + 1];
            s.n.queued == 0 && !s.composer.Composing? && s.n.composed + s.n.skipped == s.n.setCall
  {
    RunInv(false, states, steps, i);
    assert Next(states[i], steps[i], states[i + 1]);
  }

  /** With fences a set call returns without waiting exactly if no frame is queued and no call was ever
      skipped; one that signalled a video frame inline, if they are at most one.  So once a call has
      been skipped with the display off, every later call without such a frame waits. */
  lemma ReturnsAtOnceIff(states: seq<State>, steps: seq<Step>, i: nat)
    requires IsRun(true, states, steps) && i < |steps| && steps[i].Test?
    ensures states[i].setter.Kicked?
    ensures states[i + 1].setter.Returned? <==>
              states[i].n.queued + states[i].n.skipped <= if states[i].setter.oob then 1 else 0
    ensures states[i + 1].setter.Returned? || states[i + 1].setter.AwaitForced?
  {
    RunInv(true, states, steps, i);
    assert Next(states[i], steps[i], states[i + 1]);
  }

  /** In either mode every frame the composer finishes releases the set call that may wait for it. */
  lemma EveryFrameReleases(fences: bool, states: seq<State>, steps: seq<Step>, i: nat)
    requires IsRun(fences, states, steps) && i < |steps| && steps[i].Compose? && states[i].composer.Composing?
    ensures states[i + 1].forced
  {
    RunInv(fences, states, steps, i);
    assert Next(states[i], steps[i], states[i + 1]);
  }

  /** The composer left alone for `n` steps; it stops where it has to wait. */
  function Alone(s: State, n: nat): State
    decreases n
  {
    if n == 0 || !ComposerReady(s) then s else Alone(ComposerStep(s), n - 1)
  }

  /** A throttled set call is always released: while the display is on, at most four composer
      steps latch `forced`, although signals coalesce. */
  lemma ThrottledIsReleased(states: seq<State>, steps: seq<Step>, i: nat) returns (n: nat)
    requires IsRun(true, states, steps) && i < |states| && states[i].setter.AwaitForced? && states[i].power
    ensures n <= 4 && Alone(states[i], n).forced
  {
    RunInv(true, states, steps, i);
    n := 0;
    if !states[i].forced { n := Release(states[i]); }
  }

  /** So is one that waits for the drained queue on a platform without fences. */
  lemma SyncIsLatched(states: seq<State>, steps: seq<Step>, i: nat) returns (n: nat)
    requires IsRun(false, states, steps) && i < |states| && states[i].setter.AwaitSync? && states[i].power
    ensures n <= 6 && Alone(states[i], n).sync
  {
    RunInv(false, states, steps, i);
    n := 0;
    if !states[i].sync { n := Drain(states[i]); }
  }

  /** The steps to the end of the drain, with at most one frame to compose. */
  function ToSync(s: State): nat {
    match s.composer
    case Top => 6
    case Asleep => 5
    case Draining => if s.n.queued > 0 then 4 else 2
    case Composing(_) => 3
    case Drained => 1
  }

  lemma Drain(s: State) returns (n: nat)
    requires Inv(s) && !s.fences && s.power && s.setter.AwaitSync? && !s.sync
    ensures n <= ToSync(s) && Alone(s, n).sync
    decreases ToSync(s)
  {
    ComposerInv(s);
    var s' := ComposerStep(s);
    n := 1;
    if !s'.sync {
      var m := Drain(s');
      n := m + 1;
    }
  }

  function Rank(c: Composer): nat {
    match c case Top => 4 case Asleep => 3 case Draining => 2 case _ => 1
  }

  lemma Release(s: State) returns (n: nat)
    requires Inv(s) && s.fences && s.power && s.setter.AwaitForced? && !s.forced
    ensures n <= Rank(s.composer) && Alone(s, n).forced
    decreases Rank(s.composer)
  {
    ComposerInv(s);
    var s' := ComposerStep(s);
    n := 1;
    if !s'.forced {
      var m := Release(s');
      n := m + 1;
    }
  }
}
