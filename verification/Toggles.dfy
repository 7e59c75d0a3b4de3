/** Which display surfaces a mode toggle has destroyed.

    A toggle destroys every display buffer before it does anything that can fail, and only a toggle
    that runs to its end gives the ring new surfaces.  The history below is kept beside a run. */
module Toggles {
  import opened Common
  import opened DisplayRing
  import opened Pipeline
  import opened PipelineTheorems
  import SI = SurfaceInvariant

  /** Handles destroyed and not created again, whether a toggle has failed since the ring was
      initialised, and how many buffers the last toggle that failed had replaced or emptied. */
  datatype Graves = Graves(dead: set<Surface>, failed: bool, touched: nat)

  const None_ := Graves({}, false, 0)

  /** The display buffers that are not null. */
  function Handles(buffers: seq<Surface>): set<Surface> {
    set x | x in buffers && x != 0
  }

  /** A toggle begins with its first step after the frame was popped. */
  predicate Begins(s: State, step: Step) {
    s.phase.Popped? && (step.SwapBuffer? || step.SwapFailed?)
  }

  function Note(g: Graves, s: State, step: Step): Graves {
    var dead := if Begins(s, step) then g.dead + Handles(s.disp.buffers) else g.dead;
    match step
    case SwapBuffer(n) => g.(dead := dead - {n})
    case SwapFailed(nulled) =>
      var j := if s.phase.Swapping? then s.phase.done else 0;
      Graves(dead, true, if nulled then j + 1 else j)
    case Reinit => g.(failed := false)
    case _ => g
  }

  ghost function GravesAfter(s: State, g: Graves, run: seq<Step>): Graves
    requires Shape(s) && Legal(s, run)
    decreases |run|
  {
    if run == [] then g
    else
      ShapeKept(s, run[0]);
      GravesAfter(Apply(s, run[0]), Note(g, s, run[0]), run[1..])
  }

  // ------------------------------------------------------------------ invariant

  /** Under way or failed, a toggle has destroyed all the ring's surfaces; otherwise none is. */
  ghost predicate Owners(s: State, g: Graves) {
    && (g.failed || s.phase.Swapping? ==> forall x :: x in s.disp.owners ==> x in g.dead)
    && (!g.failed && !s.phase.Swapping? ==> forall x :: x in s.disp.owners ==> x !in g.dead)
    && (!g.failed ==> s.disp.replaced == 0)
  }

  /** How many of the display buffers the toggle under way, or the last failed one, has dealt with. */
  function Dealt(s: State, g: Graves): nat {
    if s.phase.Swapping? then s.phase.done else g.touched
  }

  /** Those are alive or null, the others destroyed or null. */
  ghost predicate Split(s: State, g: Graves)
    requires |s.disp.buffers| == NUM_DISP_BUFFERS
  {
    (g.failed || s.phase.Swapping?) ==>
      && (forall i :: 0 <= i < NUM_DISP_BUFFERS && i < Dealt(s, g) ==> s.disp.buffers[i] !in g.dead)
      && (forall i :: Dealt(s, g) <= i < NUM_DISP_BUFFERS ==> s.disp.buffers[i] == 0 || s.disp.buffers[i] in g.dead)
  }

  ghost predicate Inv(s: State, g: Graves) {
    |s.disp.buffers| == NUM_DISP_BUFFERS && Owners(s, g) && Split(s, g) && 0 !in g.dead
  }

  predicate Toggling(step: Step) { step.SwapBuffer? || step.SwapFailed? || step.Reinit? }

  /** A toggle that begins destroys all buffers; unless one has failed they are the ring's. */
  lemma BeginKills(s: State, g: Graves)
    requires SI.Inv(s) && Inv(s, g) && s.phase.Popped?
    ensures forall x :: x in s.disp.owners ==> x in g.dead + Handles(s.disp.buffers)
    ensures forall i :: 0 <= i < NUM_DISP_BUFFERS ==> s.disp.buffers[i] == 0 || s.disp.buffers[i] in g.dead + Handles(s.disp.buffers)
  {
    forall x | x in s.disp.owners ensures x in g.dead + Handles(s.disp.buffers) {
      assert x in Live(s);
      if !g.failed { assert s.disp.owners == s.disp.buffers; }
    }
  }

  lemma SwapStep(s: State, g: Graves, n: Surface)
    requires SI.Inv(s) && Inv(s, g) && Enabled(s, SwapBuffer(n))
    ensures Inv(Apply(s, SwapBuffer(n)), Note(g, s, SwapBuffer(n)))
  {
    if s.phase.Popped? { BeginKills(s, g); }
  }

  lemma FailStep(s: State, g: Graves, nulled: bool)
    requires SI.Inv(s) && Inv(s, g) && Enabled(s, SwapFailed(nulled))
    ensures Inv(Apply(s, SwapFailed(nulled)), Note(g, s, SwapFailed(nulled)))
  {
    if s.phase.Popped? { BeginKills(s, g); }
  }

  lemma ReinitStep(s: State, g: Graves)
    requires SI.Inv(s) && Inv(s, g) && Enabled(s, Reinit)
    ensures Inv(Apply(s, Reinit), Note(g, s, Reinit))
  {
  }

  lemma OtherStep(s: State, g: Graves, step: Step)
    requires Shape(s) && Inv(s, g) && Enabled(s, step) && !Toggling(step)
    ensures Inv(Apply(s, step), Note(g, s, step))
  {
    SameBuffers(s, step);
  }

  lemma SameBuffers(s: State, step: Step)
    requires Shape(s) && Enabled(s, step) && !Toggling(step)
    ensures var s' := Apply(s, step);
            && s'.disp.buffers == s.disp.buffers && s'.disp.owners == s.disp.owners && s'.disp.replaced == s.disp.replaced
            && (s'.phase.Swapping? <==> s.phase.Swapping?) && (s.phase.Swapping? ==> s'.phase.done == s.phase.done)
  {
  }

  lemma StepInv(s: State, g: Graves, step: Step)
    requires SI.Inv(s) && Inv(s, g) && Enabled(s, step)
    ensures Inv(Apply(s, step), Note(g, s, step))
  {
    if step.SwapBuffer? { SwapStep(s, g, step.new_); }
    else if step.SwapFailed? { FailStep(s, g, step.nulled); }
    else if step.Reinit? { ReinitStep(s, g); }
    else { OtherStep(s, g, step); }
  }

  lemma {:induction false} RunInv(s: State, g: Graves, run: seq<Step>)
    requires SI.Inv(s) && Inv(s, g) && Legal(s, run)
    ensures SI.Inv(After(s, run)) && Inv(After(s, run), GravesAfter(s, g, run))
    decreases |run|
  {
    if run != [] {
      SI.StepInv(s, run[0]);
      StepInv(s, g, run[0]);
      RunInv(Apply(s, run[0]), Note(g, s, run[0]), run[1..]);
    }
  }

  lemma Invariants(buffers: seq<Surface>, run: seq<Step>)
    requires Buffers(buffers) && Legal(Initial(buffers), run)
    ensures SI.Inv(After(Initial(buffers), run))
    ensures Inv(After(Initial(buffers), run), GravesAfter(Initial(buffers), None_, run))
  {
    SI.InitialInv(buffers);
    RunInv(Initial(buffers), None_, run);
  }

  // ------------------------------------------------------------------ theorems

  /** In every run, the surface the composer holds has been destroyed if and only if a toggle has
      failed since the ring was initialised, wherever it failed. */
  lemma HeldIsDestroyedIff(buffers: seq<Surface>, run: seq<Step>)
    requires Buffers(buffers) && Legal(Initial(buffers), run) && After(Initial(buffers), run).phase.Holding?
    ensures var s, g := After(Initial(buffers), run), GravesAfter(Initial(buffers), None_, run);
            s.phase.out in g.dead <==> g.failed
  {
    Invariants(buffers, run);
    var s := After(Initial(buffers), run);
    assert s.phase.out in HeldBag(s.phase);
    assert s.phase.out in multiset(s.disp.owners);
  }

  /** The same of every surface in the ring, which is what later frames will be composed into. */
  lemma RingIsDestroyedIff(buffers: seq<Surface>, run: seq<Step>, x: Surface)
    requires Buffers(buffers) && Legal(Initial(buffers), run)
    requires x in After(Initial(buffers), run).disp.ring.Contents() && !After(Initial(buffers), run).phase.Swapping?
    ensures var g := GravesAfter(Initial(buffers), None_, run); x in g.dead <==> g.failed
  {
    Invariants(buffers, run);
    var s := After(Initial(buffers), run);
    assert x in multiset(s.disp.ring.Contents());
    assert x in multiset(s.disp.owners);
  }

  /** A toggle about to begin will destroy some surface a second time if and only if one has failed
      and left a buffer it had not come to. */
  lemma DestroysTwiceIff(buffers: seq<Surface>, run: seq<Step>)
    requires Buffers(buffers) && Legal(Initial(buffers), run) && After(Initial(buffers), run).phase.Popped?
    ensures var s, g := After(Initial(buffers), run), GravesAfter(Initial(buffers), None_, run);
            (exists x :: x in Handles(s.disp.buffers) && x in g.dead)
            <==> g.failed && exists i :: g.touched <= i < NUM_DISP_BUFFERS && s.disp.buffers[i] != 0
  {
    Invariants(buffers, run);
    var s, g := After(Initial(buffers), run), GravesAfter(Initial(buffers), None_, run);
    if g.failed {
      if i :| g.touched <= i < NUM_DISP_BUFFERS && s.disp.buffers[i] != 0 {
        assert s.disp.buffers[i] in Handles(s.disp.buffers);
      }
    } else {
      assert s.disp.buffers == s.disp.owners;
    }
  }

  lemma {:induction false} GravesExtend(s: State, g: Graves, run: seq<Step>, step: Step)
    requires Shape(s) && Legal(s, run) && Enabled(After(s, run), step) && Legal(s, run + [step])
    ensures GravesAfter(s, g, run + [step]) == Note(GravesAfter(s, g, run), After(s, run), step)
    decreases |run|
  {
    if run == [] {
      assert run + [step] == [step];
      ShapeKept(s, step);
      assert [step][1..] == [];
    } else {
      ShapeKept(s, run[0]);
      assert (run + [step])[1..] == run[1..] + [step];
      GravesExtend(Apply(s, run[0]), Note(g, s, run[0]), run[1..], step);
    }
  }

  /** A toggle that fails before its first buffer leaves the handles where they are: the composer
      holds a display buffer, and it is destroyed. */
  lemma DestroyedButCurrent() returns (run: seq<Step>)
    ensures Legal(Initial([1, 2, 3]), run)
    ensures var s, g := After(Initial([1, 2, 3]), run), GravesAfter(Initial([1, 2, 3]), None_, run);
            s.phase.Holding? && s.disp.replaced == 0 && s.phase.out in s.disp.buffers && s.phase.out in g.dead
  {
    var s := Initial([1, 2, 3]);
    run := TakenUp(s, []);
    var before := run;
    run := before + [SwapFailed(false)];
    Extend(s, before, SwapFailed(false));
    GravesExtend(s, None_, before, SwapFailed(false));
    assert GravesAfter(s, None_, run).failed;
    run := AcquiredKeeps(s, run);
    HeldIsDestroyedIff([1, 2, 3], run);
  }

  /** Fetching a surface neither ends nor causes a failure. */
  lemma AcquiredKeeps(s: State, run: seq<Step>) returns (run': seq<Step>)
    requires Shape(s) && Legal(s, run) && After(s, run).phase.Fetching?
    requires After(s, run).disp.fetcher.Free? && After(s, run).disp.ring.count > 0
    ensures Legal(s, run') && GravesAfter(s, None_, run') == GravesAfter(s, None_, run)
    ensures var a := After(s, run);
            After(s, run') == a.(phase := Holding(a.phase.frame, a.disp.ring.slots[a.disp.ring.rd]),
                                 disp := a.disp.(ring := a.disp.ring.ReadCommit()))
  {
    Extend(s, run, Peek);
    GravesExtend(s, None_, run, Peek);
    var r1 := run + [Peek];
    Extend(s, r1, ReadSlot);
    GravesExtend(s, None_, r1, ReadSlot);
    var r2 := r1 + [ReadSlot];
    Extend(s, r2, Dereference);
    GravesExtend(s, None_, r2, Dereference);
    run' := r2 + [Dereference];
  }
}
