/** What holds of every run of the composition pipeline, and where it stops holding. */
module PipelineTheorems {
  import opened Common
  import opened DisplayRing
  import opened Pipeline
  import SI = SurfaceInvariant
  import TL = Timelines

  /** Display buffers as allocation hands them out: three distinct, non-null surfaces. */
  ghost predicate Buffers(buffers: seq<Surface>) {
    |buffers| == NUM_DISP_BUFFERS && Distinct(buffers) && 0 !in buffers
  }

  lemma Invariants(buffers: seq<Surface>, run: seq<Step>)
    requires Buffers(buffers) && Legal(Initial(buffers), run)
    ensures SI.Inv(After(Initial(buffers), run)) && TL.Inv(After(Initial(buffers), run))
  {
    SI.InitialInv(buffers);
    TL.InitialInv(buffers);
    SI.RunInv(Initial(buffers), run);
    TL.RunInv(Initial(buffers), run);
  }

  /** Surface conservation: ring, composer, lost surfaces and the owners out on display or in a
      thread's hands are together exactly the owners; so places are disjoint, the ring holds no
      duplicate and never overflows.  The owners are the current display buffers unless a mode
      toggle is under way or has failed. */
  lemma SurfacesConserved(buffers: seq<Surface>, run: seq<Step>)
    requires Buffers(buffers) && Legal(Initial(buffers), run)
    ensures var s := After(Initial(buffers), run);
            && multiset(s.disp.ring.Contents()) + HeldBag(s.phase) + s.disp.lost + Away(s) * multiset(s.disp.owners)
               == multiset(s.disp.owners)
            && Distinct(s.disp.owners)
            && s.disp.ring.count <= NUM_DISP_BUFFERS
            && (forall x :: x in s.disp.ring.Contents() ==> x !in Away(s) && x !in HeldBag(s.phase))
            && (s.disp.replaced == 0 && !s.phase.Swapping? ==> s.disp.owners == s.disp.buffers)
  {
    Invariants(buffers, run);
    var s := After(Initial(buffers), run);
    SI.RingFits(s);
    Balanced(s);
  }

  lemma Balanced(s: State)
    requires SI.Inv(s)
    ensures multiset(s.disp.ring.Contents()) + HeldBag(s.phase) + s.disp.lost + Away(s) * multiset(s.disp.owners)
            == multiset(s.disp.owners)
    ensures forall x :: x in s.disp.ring.Contents() ==> x !in Away(s) && x !in HeldBag(s.phase)
  {
    var inside := multiset(s.disp.ring.Contents()) + HeldBag(s.phase) + s.disp.lost;
    var own := multiset(s.disp.owners);
    forall x ensures (inside + Away(s) * own)[x] == own[x] {
      DistinctOnce(s.disp.owners, x);
      assert Live(s)[x] == inside[x] + Away(s)[x];
      assert inside[x] <= own[x];
    }
    forall x | x in s.disp.ring.Contents() ensures x !in Away(s) && x !in HeldBag(s.phase) {
      assert Live(s)[x] <= 1 && x in multiset(s.disp.ring.Contents());
    }
  }

  /** Whatever the recycle thread did since the slot was committed and unlocked, the composer
      dereferences the surface it read, and nobody else has that surface. */
  lemma ReadSlotSurvives(buffers: seq<Surface>, run: seq<Step>)
    requires Buffers(buffers) && Legal(Initial(buffers), run)
    requires After(Initial(buffers), run).phase.Reading?
    ensures var s := After(Initial(buffers), run);
            && s.disp.ring.slots[s.phase.slot] == s.phase.read != 0
            && Apply(s, Dereference).phase.out == s.phase.read
            && s.phase.read !in s.disp.ring.Contents() && s.phase.read !in Away(s)
  {
    Invariants(buffers, run);
    var s := After(Initial(buffers), run);
    SI.DereferenceInv(s);
    assert s.phase.read in HeldBag(s.phase);
    assert Live(s)[s.phase.read] <= 1;
    assert s.phase.read in s.disp.ring.Contents() <==> s.phase.read in multiset(s.disp.ring.Contents());
  }

  /** Retire conservation, with the two ways of losing a step made explicit. */
  lemma RetireConserved(buffers: seq<Surface>, run: seq<Step>)
    requires Buffers(buffers) && Legal(Initial(buffers), run)
    ensures var s := After(Initial(buffers), run);
            s.ret.value + |TL.Undecided(s)| + TL.Outstanding(s) + s.ret.missed + s.ret.skipped == s.setCall
  {
    Invariants(buffers, run);
  }

  /** The retire fence of a frame that is queued or still in composition never has signalled. */
  lemma RetireNeverAhead(buffers: seq<Surface>, run: seq<Step>, f: Frame)
    requires Buffers(buffers) && Legal(Initial(buffers), run)
    requires f in TL.Undecided(After(Initial(buffers), run))
    ensures After(Initial(buffers), run).ret.value < f.ix
  {
    Invariants(buffers, run);
    var fs := TL.Undecided(After(Initial(buffers), run));
    var i :| 0 <= i < |fs| && fs[i] == f;
  }

  ghost predicate Drained(s: State) {
    && s.queue == [] && s.phase.Waiting? && s.disp.pushed == multiset{}
    && s.disp.recycler.Free? && s.disp.fetcher.Free?
  }

  /** Once drained and recycled, every retire fence handed out has signalled exactly if no set
      call was skipped and no frame missed its timeline step. */
  lemma DrainedRetires(buffers: seq<Surface>, run: seq<Step>)
    requires Buffers(buffers) && Legal(Initial(buffers), run) && Drained(After(Initial(buffers), run))
    ensures var s := After(Initial(buffers), run);
            s.ret.value == s.setCall <==> s.ret.missed == 0 && s.ret.skipped == 0
  {
    Invariants(buffers, run);
  }

  /** Release accounting for every layer of every run: each fence carried is still unsignalled,
      and if none of the layer's fences was orphaned the k-th of them signals at the k-th
      release to come. */
  lemma ReleaseConserved(buffers: seq<Surface>, run: seq<Step>, l: nat)
    requires Buffers(buffers) && Legal(Initial(buffers), run) && l < NUM_LAYERS
    ensures var s := After(Initial(buffers), run);
            var v := TL.Values(TL.Carriers(s), l);
            && s.tl.value[l] + |v| + s.tl.orphans[l] == s.tl.ix[l]
            && (forall k :: 0 <= k < |v| ==> s.tl.value[l] < v[k])
            && (s.tl.orphans[l] == 0 ==> forall k :: 0 <= k < |v| ==> v[k] == s.tl.value[l] + 1 + k)
  {
    Invariants(buffers, run);
    assert TL.LayerInv(After(Initial(buffers), run), l);
  }

  /** A release, early or final, signals the releasing frame's own fence and no later one, and
      the frame cannot release that layer again. */
  lemma ReleaseSignalsOwnFence(buffers: seq<Surface>, run: seq<Step>, l: nat)
    requires Buffers(buffers) && Legal(Initial(buffers), run)
    requires Enabled(After(Initial(buffers), run), ReleaseLayer(l))
    ensures var s := After(Initial(buffers), run);
            var s' := Apply(s, ReleaseLayer(l));
            && s.tl.value[l] < s.phase.frame.rel[l]
            && (s.tl.orphans[l] == 0 ==> s'.tl.value[l] == s.phase.frame.rel[l])
            && !Enabled(s', ReleaseLayer(l))
  {
    Invariants(buffers, run);
    var s := After(Initial(buffers), run);
    assert TL.LayerInv(s, l);
    TL.LayerRelease(s, ReleaseLayer(l), l);
  }

  /** When no frame is left, the last fence of a layer has signalled exactly if no fence of that
      layer was orphaned. */
  lemma DrainedReleases(buffers: seq<Surface>, run: seq<Step>, l: nat)
    requires Buffers(buffers) && Legal(Initial(buffers), run) && l < NUM_LAYERS
    requires TL.Carriers(After(Initial(buffers), run)) == []
    ensures var s := After(Initial(buffers), run);
            s.tl.value[l] == s.tl.ix[l] <==> s.tl.orphans[l] == 0
  {
    Invariants(buffers, run);
    assert TL.LayerInv(After(Initial(buffers), run), l);
  }

  // ------------------------------------------------------------------ where it fails

  lemma {:induction false} Extend(s: State, run: seq<Step>, step: Step)
    requires Shape(s) && Legal(s, run) && Enabled(After(s, run), step)
    ensures Legal(s, run + [step]) && After(s, run + [step]) == Apply(After(s, run), step)
    decreases |run|
  {
    if run == [] {
      ShapeKept(s, step);
      assert run + [step] == [step];
    } else {
      ShapeKept(s, run[0]);
      Extend(Apply(s, run[0]), run[1..], step);
      assert (run + [step])[1..] == run[1..] + [step];
    }
  }

  lemma Grow(s: State, run: seq<Step>, step: Step) returns (run': seq<Step>)
    requires Shape(s) && Legal(s, run) && Enabled(After(s, run), step)
    ensures Legal(s, run') && After(s, run') == Apply(After(s, run), step)
    ensures step != Retire && Retire !in run ==> Retire !in run'
  {
    Extend(s, run, step);
    run' := run + [step];
  }

  /** The composer takes the oldest surface of the ring. */
  lemma Acquired(s: State, run: seq<Step>) returns (run': seq<Step>)
    requires Shape(s) && Legal(s, run) && After(s, run).phase.Fetching?
    requires After(s, run).disp.fetcher.Free? && After(s, run).disp.ring.count > 0
    ensures Legal(s, run') && (Retire !in run ==> Retire !in run')
    ensures var a := After(s, run);
            After(s, run') == a.(phase := Holding(a.phase.frame, a.disp.ring.slots[a.disp.ring.rd]),
                                 disp := a.disp.(ring := a.disp.ring.ReadCommit()))
  {
    run' := Grow(s, run, Peek);
    run' := Grow(s, run', ReadSlot);
    run' := Grow(s, run', Dereference);
  }

  /** A set call queues a frame without release fences and the composer takes it up. */
  lemma TakenUp(s: State, run: seq<Step>) returns (run': seq<Step>)
    requires Shape(s) && Legal(s, run) && After(s, run).phase.Waiting? && After(s, run).queue == []
    ensures Legal(s, run') && (Retire !in run ==> Retire !in run')
    ensures var a := After(s, run); var b := After(s, run');
            && b.phase == Popped(Frame(a.setCall + 1, true, map[])) && b.setCall == a.setCall + 1
            && b.queue == [] && b.ret == a.ret && b.disp == a.disp
  {
    run' := Grow(s, run, SetFrame(true, {}, {}));
    assert NewFences(After(s, run), {}) == map[];
    run' := Grow(s, run', Pop);
  }

  /** One frame brought as far as holding its output surface. */
  lemma Fetched(s: State, run: seq<Step>) returns (run': seq<Step>)
    requires Shape(s) && Legal(s, run) && After(s, run).phase.Waiting? && After(s, run).queue == []
    requires After(s, run).disp.fetcher.Free? && After(s, run).disp.ring.count > 0
    ensures Legal(s, run') && (Retire !in run ==> Retire !in run')
    ensures var a := After(s, run); var b := After(s, run');
            && b.phase.Holding? && b.phase.out == a.disp.ring.slots[a.disp.ring.rd]
            && b.phase.frame == Frame(a.setCall + 1, true, map[])
            && b.setCall == a.setCall + 1 && b.queue == [] && b.ret == a.ret
            && b.disp == a.disp.(ring := a.disp.ring.ReadCommit())
  {
    run' := TakenUp(s, run);
    run' := Grow(s, run', BeginFetch);
    run' := Acquired(s, run');
  }

  lemma ReturnEffect(a: State, x: Surface)
    requires Shape(a) && a.disp.recycler.Free? && x in a.disp.pushed
    ensures Enabled(a, Take(RecycleThread, [x]))
    ensures var b := Apply(a, Take(RecycleThread, [x]));
            && Shape(b) && Enabled(b, Store(RecycleThread))
            && var c := Apply(b, Store(RecycleThread));
            && Shape(c) && Enabled(c, Signal(RecycleThread))
            && c.disp.pushed == a.disp.pushed - multiset{x} && c.ret == a.ret && c.disp.recycler == Owing(1)
  {
    ShapeKept(a, Take(RecycleThread, [x]));
    ShapeKept(Apply(a, Take(RecycleThread, [x])), Store(RecycleThread));
  }

  /** The recycle thread brings a surface back. */
  lemma Returned(s: State, run: seq<Step>, x: Surface) returns (run': seq<Step>)
    requires Shape(s) && Legal(s, run) && After(s, run).disp.recycler.Free? && x in After(s, run).disp.pushed
    ensures Legal(s, run') && (Retire !in run ==> Retire !in run')
    ensures var a := After(s, run); var b := After(s, run');
            b.disp.pushed == a.disp.pushed - multiset{x} && b.ret == a.ret.(value := a.ret.value + 1)
  {
    ReturnEffect(After(s, run), x);
    run' := Grow(s, run, Take(RecycleThread, [x]));
    run' := Grow(s, run', Store(RecycleThread));
    run' := Grow(s, run', Signal(RecycleThread));
  }

  /** The composed frame pushed and closed. */
  lemma Shown(s: State, run: seq<Step>) returns (run': seq<Step>)
    requires Shape(s) && Legal(s, run) && After(s, run).phase.Holding? && After(s, run).phase.frame.rel == map[]
    ensures Legal(s, run') && (Retire !in run ==> Retire !in run')
    ensures var a := After(s, run); var b := After(s, run');
            && b.phase.Waiting? && b.queue == a.queue
            && b.disp == a.disp.(pushed := a.disp.pushed + multiset{a.phase.out})
            && b.ret == a.ret.(lastDone := a.phase.frame.ix)
  {
    run' := Grow(s, run, Push);
    run' := Grow(s, run', Finish);
  }

  /** A run that leaves the first frame on display. */
  lemma FirstOnDisplay() returns (run: seq<Step>)
    ensures Legal(Initial([1, 2, 3]), run) && Retire !in run
    ensures var s := After(Initial([1, 2, 3]), run);
            && s.phase.Waiting? && s.queue == [] && s.disp.fetcher.Free? && s.disp.recycler.Free?
            && s.disp.ring == Ring([1, 2, 3], 1, 2)
            && s.disp.pushed == multiset{1} && s.ret == Retiring(0, 0, 0, 1)
  {
    var s := Initial([1, 2, 3]);
    run := Fetched(s, []);
    run := Shown(s, run);
  }

  /** The retire fence of a frame on display can signal before the frame is recycled: a later
      frame that is dropped advances the timeline past it. */
  lemma RetireBeforeRecycle() returns (run: seq<Step>)
    ensures Legal(Initial([1, 2, 3]), run)
    ensures var s := After(Initial([1, 2, 3]), run);
            s.ret.missed == s.ret.skipped == 0 && s.disp.pushed == multiset{1} && s.ret.value == 1
  {
    var s := Initial([1, 2, 3]);
    run := FirstOnDisplay();
    run := Fetched(s, run);
    run := Grow(s, run, PutBack);
    run := Grow(s, run, Retire);
  }

  /** It can also signal without any dropped frame: the surface of a later frame comes back first. */
  lemma RetireByOvertaking() returns (run: seq<Step>)
    ensures Legal(Initial([1, 2, 3]), run) && Retire !in run
    ensures var s := After(Initial([1, 2, 3]), run);
            s.ret.missed == s.ret.skipped == 0 && s.disp.pushed == multiset{1} && s.ret.value == 1
  {
    var s := Initial([1, 2, 3]);
    run := FirstOnDisplay();
    run := Fetched(s, run);
    run := Shown(s, run);
    run := Returned(s, run, 2);
  }

  /** After a failed mode toggle the composer can acquire a surface that is no display buffer. */
  lemma StaleAfterFailedToggle() returns (run: seq<Step>)
    ensures Legal(Initial([1, 2, 3]), run)
    ensures var s := After(Initial([1, 2, 3]), run); s.phase.Holding? && s.phase.out !in s.disp.buffers
  {
    var s := Initial([1, 2, 3]);
    run := TakenUp(s, []);
    run := Grow(s, run, SwapFailed(true));
    run := Acquired(s, run);
  }

  /** Exactly when: a surface the composer acquires is an owner of the ring, and it is a display
      buffer if and only if its place lies past the buffers that failed toggles have replaced or
      emptied since the ring was initialised. */
  lemma HeldIsCurrentIff(buffers: seq<Surface>, run: seq<Step>)
    requires Buffers(buffers) && Legal(Initial(buffers), run)
    requires After(Initial(buffers), run).phase.Holding?
    ensures var s := After(Initial(buffers), run);
            exists i :: 0 <= i < NUM_DISP_BUFFERS && s.disp.owners[i] == s.phase.out
                        && (s.phase.out in s.disp.buffers <==> i >= s.disp.replaced)
  {
    Invariants(buffers, run);
    var s := After(Initial(buffers), run);
    assert s.phase.out in HeldBag(s.phase);
    assert s.phase.out in multiset(s.disp.owners);
    var i :| 0 <= i < NUM_DISP_BUFFERS && s.disp.owners[i] == s.phase.out;
    OwnerIsCurrentIff(s, i);
  }

  lemma OwnerIsCurrentIff(s: State, i: nat)
    requires SI.Inv(s) && !s.phase.Swapping? && i < NUM_DISP_BUFFERS
    ensures s.disp.owners[i] in s.disp.buffers <==> i >= s.disp.replaced
  {
    assert s.disp.owners[i] in Live(s);
    if s.disp.owners[i] in s.disp.buffers {
      var k :| 0 <= k < NUM_DISP_BUFFERS && s.disp.buffers[k] == s.disp.owners[i];
      assert k >= s.disp.replaced;
    }
  }
}
