/** What takes a display surface out of circulation, and what a step does to the ring. */
module Losses {
  import opened Common
  import opened DisplayRing
  import opened Pipeline
  import opened PipelineTheorems
  import SI = SurfaceInvariant

  /** The only ways to lose a surface: its push fails, its checkpoint times out, or it is recycled
      after a mode toggle has replaced its buffer. */
  function Loss(s: State, step: Step): multiset<Surface>
    requires Shape(s) && Enabled(s, step)
  {
    if step.PushFailed? || step.CheckpointTimeout? then multiset{s.phase.out}
    else if step.Store? && HandOf(s.disp, step.who).got != [] then
      var x := HandOf(s.disp, step.who).got[0];
      if x in s.disp.owners && x !in s.disp.buffers then multiset{x} else multiset{}
    else multiset{}
  }

  /** What has been lost since the ring was last initialised. */
  ghost function LostBy(s: State, lost: multiset<Surface>, run: seq<Step>): multiset<Surface>
    requires Shape(s) && Legal(s, run)
    decreases |run|
  {
    if run == [] then lost
    else
      ShapeKept(s, run[0]);
      LostBy(Apply(s, run[0]), if run[0].Reinit? then multiset{} else lost + Loss(s, run[0]), run[1..])
  }

  /** How many steps of a run lose a surface. */
  ghost function LossCount(s: State, run: seq<Step>): nat
    requires Shape(s) && Legal(s, run)
    decreases |run|
  {
    if run == [] then 0
    else
      ShapeKept(s, run[0]);
      |Loss(s, run[0])| + LossCount(Apply(s, run[0]), run[1..])
  }

  lemma OneOf(got: seq<Surface>, buffers: seq<Surface>)
    ensures Current(First(got), buffers) == if got != [] && got[0] in buffers then [got[0]] else []
    ensures Stale(First(got), buffers) == if got != [] && got[0] !in buffers then [got[0]] else []
  {
    if got != [] { assert First(got)[1..] == []; }
  }

  lemma StoreEffect(s: State, who: Actor)
    requires Shape(s) && Enabled(s, Store(who))
    ensures var s', first := Apply(s, Store(who)), First(HandOf(s.disp, who).got);
            && s'.disp.ring == StoreAll(s.disp.ring, first, s.disp.buffers)
            && s'.disp.lost == s.disp.lost + multiset(Current(Stale(first, s.disp.buffers), s.disp.owners))
  {
  }

  lemma StoreLoses(s: State, who: Actor)
    requires Shape(s) && Enabled(s, Store(who))
    ensures Apply(s, Store(who)).disp.lost == s.disp.lost + Loss(s, Store(who))
  {
    var got := HandOf(s.disp, who).got;
    StoreEffect(s, who);
    OneOf(got, s.disp.buffers);
    var stale := Stale(First(got), s.disp.buffers);
    if stale != [] {
      assert stale == First(got);
      OneOf(got, s.disp.owners);
    }
    assert multiset(Current(stale, s.disp.owners)) == Loss(s, Store(who));
  }

  lemma StepLoses(s: State, step: Step)
    requires Shape(s) && Enabled(s, step)
    ensures Apply(s, step).disp.lost == if step.Reinit? then multiset{} else s.disp.lost + Loss(s, step)
  {
    if step.Store? { StoreLoses(s, step.who); }
  }

  lemma {:induction false} RunLoses(s: State, run: seq<Step>)
    requires Shape(s) && Legal(s, run)
    ensures After(s, run).disp.lost == LostBy(s, s.disp.lost, run)
    ensures |After(s, run).disp.lost| <= |s.disp.lost| + LossCount(s, run)
    decreases |run|
  {
    if run != [] {
      ShapeKept(s, run[0]);
      StepLoses(s, run[0]);
      RunLoses(Apply(s, run[0]), run[1..]);
    }
  }

  /** In every run the surfaces lost are exactly those whose push failed, whose checkpoint timed out,
      or that came back after a toggle had replaced their buffer, since the ring was initialised. */
  lemma LostExactly(buffers: seq<Surface>, run: seq<Step>)
    requires Buffers(buffers) && Legal(Initial(buffers), run)
    ensures After(Initial(buffers), run).disp.lost == LostBy(Initial(buffers), multiset{}, run)
    ensures |After(Initial(buffers), run).disp.lost| <= LossCount(Initial(buffers), run)
  {
    RunLoses(Initial(buffers), run);
  }

  // ------------------------------------------------------------------ runs in which nothing fails

  /** Steps that fail or replace a surface. */
  predicate Disturbs(step: Step) {
    step.PushFailed? || step.CheckpointTimeout? || step.SwapBuffer? || step.SwapFailed?
  }

  ghost predicate Undisturbed(s: State, buffers: seq<Surface>) {
    s.disp.buffers == s.disp.owners == buffers && s.disp.lost == multiset{} && !s.phase.Swapping?
  }

  lemma StepUndisturbed(s: State, step: Step, buffers: seq<Surface>)
    requires Shape(s) && Enabled(s, step) && Undisturbed(s, buffers) && !Disturbs(step)
    ensures Undisturbed(Apply(s, step), buffers)
  {
    StepLoses(s, step);
  }

  lemma {:induction false} RunUndisturbed(s: State, run: seq<Step>, buffers: seq<Surface>)
    requires Shape(s) && Legal(s, run) && Undisturbed(s, buffers) && forall step :: step in run ==> !Disturbs(step)
    ensures Undisturbed(After(s, run), buffers)
    decreases |run|
  {
    if run != [] {
      ShapeKept(s, run[0]);
      StepUndisturbed(s, run[0], buffers);
      RunUndisturbed(Apply(s, run[0]), run[1..], buffers);
    }
  }

  /** Without a failed push, a timeout or a toggle nothing is ever lost: each of the three display
      buffers is in the ring, in the composer's hands, or on display or on its way back. */
  lemma ThreeInCirculation(buffers: seq<Surface>, run: seq<Step>)
    requires Buffers(buffers) && Legal(Initial(buffers), run) && forall step :: step in run ==> !Disturbs(step)
    ensures var s := After(Initial(buffers), run);
            && s.disp.lost == multiset{} && s.disp.buffers == buffers
            && multiset(s.disp.ring.Contents()) + HeldBag(s.phase) + Away(s) * multiset(buffers) == multiset(buffers)
  {
    RunUndisturbed(Initial(buffers), run, buffers);
    SurfacesConserved(buffers, run);
    var s := After(Initial(buffers), run);
    var ring, held := multiset(s.disp.ring.Contents()), HeldBag(s.phase);
    assert ring + held + multiset{} + Away(s) * multiset(buffers) == ring + held + Away(s) * multiset(buffers);
  }

  // ------------------------------------------------------------------ the ring is a queue

  /** What a step must leave in the ring. */
  function RingAfter(s: State, step: Step): seq<Surface>
    requires Shape(s) && Enabled(s, step)
  {
    var c := s.disp.ring.Contents();
    match step
    case PutBack => c + [s.phase.out]
    case Store(who) =>
      var got := HandOf(s.disp, who).got;
      if got != [] && got[0] in s.disp.buffers then c + [got[0]] else c
    case ReadSlot => c[1..]
    case Reinit => s.disp.buffers
    case _ => c
  }

  lemma PutBackRing(s: State)
    requires SI.Inv(s) && Enabled(s, PutBack)
    ensures Apply(s, PutBack).disp.ring.Contents() == s.disp.ring.Contents() + [s.phase.out]
  {
    SI.RingFits(s);
    WriteAppends(s.disp.ring, s.phase.out);
  }

  lemma Room(s: State, who: Actor)
    requires SI.Inv(s) && Enabled(s, Store(who))
    ensures s.disp.ring.count + |Current(First(HandOf(s.disp, who).got), s.disp.buffers)| <= NUM_DISP_BUFFERS
  {
    SI.HandFits(s, who);
  }

  lemma StoreRing(s: State, who: Actor)
    requires SI.Inv(s) && Enabled(s, Store(who))
    ensures Apply(s, Store(who)).disp.ring.Contents() == RingAfter(s, Store(who))
  {
    Room(s, who);
    StoreEffect(s, who);
    StoredLast(s.disp.ring, HandOf(s.disp, who).got, s.disp.buffers);
  }

  lemma StoredLast(r: Ring, got: seq<Surface>, buffers: seq<Surface>)
    requires r.Valid() && r.count + |Current(First(got), buffers)| <= NUM_DISP_BUFFERS
    ensures StoreAll(r, First(got), buffers).Contents()
            == if got != [] && got[0] in buffers then r.Contents() + [got[0]] else r.Contents()
  {
    OneOf(got, buffers);
    StoreAllAppends(r, First(got), buffers);
    assert r.Contents() + [] == r.Contents();
  }

  lemma StepRing(s: State, step: Step)
    requires SI.Inv(s) && Enabled(s, step)
    ensures Shape(Apply(s, step)) && Apply(s, step).disp.ring.Contents() == RingAfter(s, step)
    ensures step.ReadSlot? ==> Apply(s, step).phase.read == s.disp.ring.Contents()[0]
  {
    ShapeKept(s, step);
    if step.PutBack? { PutBackRing(s); }
    else if step.Store? { StoreRing(s, step.who); }
    else if step.ReadSlot? { ReadDropsOldest(s.disp.ring); }
    else if step.Reinit? { ReinitRing(s); }
    else { SameRing(s, step); }
  }

  lemma ReinitRing(s: State)
    requires Shape(s) && Enabled(s, Reinit)
    ensures Apply(s, Reinit).disp.ring.Contents() == s.disp.buffers
  {
  }

  lemma SameRing(s: State, step: Step)
    requires Shape(s) && Enabled(s, step) && !step.PutBack? && !step.Store? && !step.ReadSlot? && !step.Reinit?
    ensures Apply(s, step).disp.ring == s.disp.ring
  {
  }

  /** In every run the ring is a queue: a dropped frame's surface and a recycled current one join at
      the end, a frame takes the oldest, and nothing else but a finished toggle touches it. */
  lemma RingIsQueue(buffers: seq<Surface>, run: seq<Step>, step: Step)
    requires Buffers(buffers) && Legal(Initial(buffers), run) && Enabled(After(Initial(buffers), run), step)
    ensures var s := After(Initial(buffers), run);
            Shape(Apply(s, step)) && Apply(s, step).disp.ring.Contents() == RingAfter(s, step)
  {
    SI.InitialInv(buffers);
    SI.RunInv(Initial(buffers), run);
    StepRing(After(Initial(buffers), run), step);
  }

  // ------------------------------------------------------------------ the composer is never stuck

  /** Release values are carried for graphics layers only. */
  ghost predicate KnownLayers(s: State) {
    && (!s.phase.Waiting? ==> OnlyLayers(s.phase.frame))
    && forall f :: f in s.queue ==> OnlyLayers(f)
  }

  ghost predicate OnlyLayers(f: Frame) {
    forall l :: l in f.rel ==> l < NUM_LAYERS
  }

  lemma StepKnown(s: State, step: Step)
    requires Shape(s) && Enabled(s, step) && KnownLayers(s)
    ensures KnownLayers(Apply(s, step))
  {
  }

  lemma {:induction false} RunKnown(s: State, run: seq<Step>)
    requires Shape(s) && Legal(s, run) && KnownLayers(s)
    ensures KnownLayers(After(s, run))
    decreases |run|
  {
    if run != [] {
      ShapeKept(s, run[0]);
      StepKnown(s, run[0]);
      RunKnown(Apply(s, run[0]), run[1..]);
    }
  }

  /** How far a frame still is from its end. */
  function Rank(p: Phase): nat {
    match p
    case Waiting => 0
    case Closing(_) => 1
    case RetireDue(_) => 2
    case Holding(_, _) => 3
    case Reading(_, _, _) => 4
    case Peeked(_) => 5
    case Fetching(_) => 6
    case Popped(_) => 7
    case Swapping(_, _) => 8
  }

  function Busy(h: Hand): nat {
    match h
    case Free => 0
    case Owing(_) => 1
    case Taken(got, _) => 2 + |got|
  }

  /** The frame came nearer to its end. */
  predicate Nearer(s: State, s': State) {
    || Rank(s'.phase) < Rank(s.phase)
    || (Rank(s'.phase) == Rank(s.phase) && Busy(s'.disp.fetcher) < Busy(s.disp.fetcher))
    || (s.phase.Closing? && s'.phase.Closing? && s'.disp == s.disp && |s'.phase.frame.rel| < |s.phase.frame.rel|)
  }

  lemma OnwardFetching(s: State) returns (step: Step)
    requires Shape(s) && s.phase.Fetching?
    ensures Enabled(s, step) && Nearer(s, Apply(s, step))
  {
    step := if s.disp.fetcher.Taken? then Store(ComposerThread)
            else if s.disp.fetcher.Owing? then Signal(ComposerThread)
            else if s.disp.ring.count > 0 then Peek else NoSurface;
  }

  lemma OnwardClosing(s: State) returns (step: Step)
    requires Shape(s) && s.phase.Closing? && OnlyLayers(s.phase.frame)
    ensures Enabled(s, step) && Nearer(s, Apply(s, step))
  {
    var rel := s.phase.frame.rel;
    if rel == map[] {
      step := Finish;
    } else {
      var l :| l in rel;
      step := ReleaseLayer(l);
      assert rel.Keys == (rel - {l}).Keys + {l};
    }
  }

  lemma OnwardSwapping(s: State) returns (step: Step)
    requires Shape(s) && s.phase.Swapping?
    ensures Enabled(s, step) && Nearer(s, Apply(s, step))
  {
    step := if s.phase.done < NUM_DISP_BUFFERS then SwapFailed(true) else Reinit;
  }

  /** A step of the composer itself that brings the frame nearer to its end. */
  lemma Onward(s: State) returns (step: Step)
    requires Shape(s) && KnownLayers(s) && !s.phase.Waiting?
    ensures Enabled(s, step) && Nearer(s, Apply(s, step))
  {
    match s.phase
    case Popped(_) => step := BeginFetch;
    case Swapping(_, _) => step := OnwardSwapping(s);
    case Fetching(_) => step := OnwardFetching(s);
    case Peeked(_) => step := ReadSlot;
    case Reading(_, _, _) => step := Dereference;
    case Holding(_, _) => step := PutBack;
    case RetireDue(_) => step := Retire;
    case Closing(_) => step := OnwardClosing(s);
  }

  /** From every state of every run the composer can finish the frame it has, without waiting for
      anyone: no frame is ever stuck. */
  lemma {:induction false} CanFinish(s: State) returns (run: seq<Step>)
    requires Shape(s) && KnownLayers(s)
    ensures Legal(s, run) && After(s, run).phase.Waiting?
    decreases Rank(s.phase), Busy(s.disp.fetcher), if s.phase.Closing? then |s.phase.frame.rel| else 0
  {
    if s.phase.Waiting? {
      run := [];
    } else {
      var step := Onward(s);
      ShapeKept(s, step);
      StepKnown(s, step);
      var rest := CanFinish(Apply(s, step));
      run := [step] + rest;
      assert run[1..] == rest;
    }
  }

  lemma NeverStuck(buffers: seq<Surface>, run: seq<Step>) returns (rest: seq<Step>)
    requires Buffers(buffers) && Legal(Initial(buffers), run)
    ensures Legal(After(Initial(buffers), run), rest) && After(After(Initial(buffers), run), rest).phase.Waiting?
  {
    RunKnown(Initial(buffers), run);
    rest := CanFinish(After(Initial(buffers), run));
  }
}
