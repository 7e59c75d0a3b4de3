/** The retire timeline counts ended frames; each layer's release timeline counts released frames. */
module Timelines {
  import opened Common
  import opened DisplayRing
  import opened Pipeline

  // ------------------------------------------------------------------ retire timeline

  /** Recycled surfaces whose timeline step is still to come. */
  function HandCount(h: Hand): nat {
    match h
    case Free => 0
    case Taken(got, stored) => |got| + stored
    case Owing(n) => n
  }

  /** Surfaces on display or on their way back: each stands for one timeline step to come. */
  function Outstanding(s: State): nat {
    |s.disp.pushed| + HandCount(s.disp.recycler) + HandCount(s.disp.fetcher)
  }

  /** Frames whose end has not been decided yet, oldest first. */
  function Undecided(s: State): seq<Frame> {
    (if s.phase.Waiting? || s.phase.Closing? then [] else [s.phase.frame]) + s.queue
  }

  ghost predicate RetireInv(s: State) {
    && s.ret.value + Outstanding(s) + s.ret.missed + |Undecided(s)| + s.ret.skipped == s.setCall
    && s.ret.value + Outstanding(s) + s.ret.missed <= s.ret.lastDone <= s.setCall
    && Ordered(Undecided(s), s.ret.lastDone, s.setCall)
  }

  /** Frames come in set-call order, after call `lo` and up to call `hi`. */
  ghost predicate Ordered(fs: seq<Frame>, lo: nat, hi: nat) {
    && (forall i :: 0 <= i < |fs| ==> lo < fs[i].ix <= hi)
    && (forall i, j :: 0 <= i < j < |fs| ==> fs[i].ix < fs[j].ix)
  }

  lemma OrderedTail(fs: seq<Frame>, lo: nat, hi: nat)
    requires Ordered(fs, lo, hi) && fs != []
    ensures Ordered(fs[1..], fs[0].ix, hi)
  {
  }

  lemma TakeCount(a: multiset<Surface>, got: seq<Surface>)
    requires multiset(got) <= a
    ensures |a - multiset(got)| + |got| == |a|
  {
    assert a == (a - multiset(got)) + multiset(got);
  }

  /** Steps that end the frame in composition; the others leave the undecided frames alone
      or append to them. */
  predicate Ends(step: Step) {
    step.Push? || step.CheckpointTimeout? || step.Retire?
  }

  lemma EndStep(s: State, step: Step)
    requires Shape(s) && RetireInv(s) && Enabled(s, step) && Ends(step)
    ensures RetireInv(Apply(s, step))
  {
    var s' := Apply(s, step);
    assert Undecided(s) == [s.phase.frame] + s.queue;
    assert Undecided(s') == s.queue;
    Dropped(s, s');
  }

  /** Ending the oldest undecided frame moves one unit to the timeline's side of the balance. */
  lemma Dropped(s: State, s': State)
    requires RetireInv(s) && !s.phase.Waiting? && Undecided(s) == [s.phase.frame] + s.queue && Undecided(s') == s.queue
    requires s'.ret.value + Outstanding(s') + s'.ret.missed == s.ret.value + Outstanding(s) + s.ret.missed + 1
    requires s'.ret.skipped == s.ret.skipped && s'.setCall == s.setCall && s'.ret.lastDone == s.phase.frame.ix
    ensures RetireInv(s')
  {
    OrderedTail(Undecided(s), s.ret.lastDone, s.setCall);
    assert Undecided(s)[1..] == s.queue;
  }

  lemma QueueStep(s: State, step: Step)
    requires Shape(s) && RetireInv(s) && Enabled(s, step) && (step.SetFrame? || step.SetSkipped? || step.Pop?)
    ensures RetireInv(Apply(s, step))
  {
    QueueEffect(s, step);
    if step.SetFrame? {
      OrderedLast(Undecided(s), Apply(s, step).queue[|s.queue|], s.ret.lastDone, s.setCall);
    }
  }

  lemma QueueEffect(s: State, step: Step)
    requires Shape(s) && Enabled(s, step) && (step.SetFrame? || step.SetSkipped? || step.Pop?)
    ensures var s' := Apply(s, step);
            && s'.ret.value == s.ret.value && s'.ret.missed == s.ret.missed && s'.ret.lastDone == s.ret.lastDone
            && Outstanding(s') == Outstanding(s)
            && s'.setCall == s.setCall + (if step.Pop? then 0 else 1)
            && s'.ret.skipped == s.ret.skipped + (if step.SetSkipped? then 1 else 0)
            && (step.SetFrame? ==> |s'.queue| == |s.queue| + 1 && s'.queue[|s.queue|].ix == s.setCall + 1
                                   && Undecided(s') == Undecided(s) + [s'.queue[|s.queue|]])
            && (!step.SetFrame? ==> Undecided(s') == Undecided(s))
  {
  }

  lemma OrderedLast(fs: seq<Frame>, f: Frame, lo: nat, hi: nat)
    requires Ordered(fs, lo, hi) && f.ix == hi + 1 && lo <= hi
    ensures Ordered(fs + [f], lo, hi + 1)
  {
  }

  lemma RecycleStep(s: State, step: Step)
    requires Shape(s) && RetireInv(s) && Enabled(s, step) && (step.Take? || step.Store? || step.Signal?)
    ensures RetireInv(Apply(s, step))
  {
    RecycleCounts(s, step);
    assert Undecided(Apply(s, step)) == Undecided(s);
  }

  lemma RecycleCounts(s: State, step: Step)
    requires Shape(s) && Enabled(s, step) && (step.Take? || step.Store? || step.Signal?)
    ensures Apply(s, step).ret.value + Outstanding(Apply(s, step)) == s.ret.value + Outstanding(s)
  {
    if step.Take? { TakeCount(s.disp.pushed, step.got); }
  }

  lemma QuietStep(s: State, step: Step)
    requires Shape(s) && RetireInv(s) && Enabled(s, step) && !Ends(step)
    requires !step.SetFrame? && !step.SetSkipped? && !step.Pop? && !step.Take? && !step.Store? && !step.Signal?
    ensures RetireInv(Apply(s, step))
  {
    var s' := Apply(s, step);
    assert s'.ret == s.ret && s'.setCall == s.setCall && s'.queue == s.queue;
    assert Outstanding(s') == Outstanding(s);
    assert |Undecided(s')| == |Undecided(s)|
        && forall i :: 0 <= i < |Undecided(s)| ==> Undecided(s')[i].ix == Undecided(s)[i].ix;
  }

  lemma RetireStep(s: State, step: Step)
    requires Shape(s) && RetireInv(s) && Enabled(s, step)
    ensures RetireInv(Apply(s, step))
  {
    if Ends(step) { EndStep(s, step); }
    else if step.SetFrame? || step.SetSkipped? || step.Pop? { QueueStep(s, step); }
    else if step.Take? || step.Store? || step.Signal? { RecycleStep(s, step); }
    else { QuietStep(s, step); }
  }

  // ------------------------------------------------------------------ release timelines

  /** Frames that may still hold release fences, oldest first. */
  function Carriers(s: State): seq<Frame> {
    (if s.phase.Waiting? then [] else [s.phase.frame]) + s.queue
  }

  /** Fence values carried for one layer, in frame order. */
  function Values(fs: seq<Frame>, l: nat): seq<nat> {
    if fs == [] then [] else ValueOf(fs[0], l) + Values(fs[1..], l)
  }

  function ValueOf(f: Frame, l: nat): seq<nat> {
    if l in f.rel then [f.rel[l]] else []
  }

  /** The k-th fence carried for the layer signals no earlier than the k-th release still to
      come, and exactly then if no fence of the layer was orphaned. */
  ghost predicate LayerInv(s: State, l: nat)
    requires Shape(s) && l < NUM_LAYERS
  {
    Tracks(s.tl.value[l], s.tl.ix[l], s.tl.orphans[l], Values(Carriers(s), l))
  }

  ghost predicate Tracks(value: nat, ix: nat, orphans: nat, v: seq<nat>) {
    && value + |v| + orphans == ix
    && (forall k :: 0 <= k < |v| ==> value + 1 + k <= v[k] <= ix)
    && (orphans == 0 ==> forall k :: 0 <= k < |v| ==> v[k] == value + 1 + k)
  }

  lemma TracksPop(value: nat, ix: nat, orphans: nat, v: seq<nat>)
    requires Tracks(value, ix, orphans, v) && v != []
    ensures Tracks(value + 1, ix, orphans, v[1..])
    ensures value < v[0] && (orphans == 0 ==> v[0] == value + 1)
  {
  }

  lemma TracksPush(value: nat, ix: nat, orphans: nat, v: seq<nat>)
    requires Tracks(value, ix, orphans, v)
    ensures Tracks(value, ix + 1, orphans, v + [ix + 1]) && Tracks(value, ix + 1, orphans + 1, v)
  {
  }

  lemma ValuesFirst(f: Frame, fs: seq<Frame>, l: nat)
    ensures Values([f] + fs, l) == ValueOf(f, l) + Values(fs, l)
  {
    assert ([f] + fs)[1..] == fs;
  }

  lemma {:induction false} ValuesAppend(fs: seq<Frame>, f: Frame, l: nat)
    ensures Values(fs + [f], l) == Values(fs, l) + ValueOf(f, l)
  {
    if fs == [] {
      ValuesFirst(f, [], l);
      assert [f] + [] == fs + [f] == [f];
    } else {
      ValuesAppend(fs[1..], f, l);
      ValuesFirst(fs[0], fs[1..] + [f], l);
      Assoc([fs[0]], fs[1..], [f]);
      assert [fs[0]] + fs[1..] == fs;
      Assoc(ValueOf(fs[0], l), Values(fs[1..], l), ValueOf(f, l));
    }
  }

  lemma SetEffect(s: State, step: Step, l: nat)
    requires Shape(s) && l < NUM_LAYERS && Enabled(s, step) && step.SetFrame?
    ensures var s' := Apply(s, step);
            && |s'.queue| == |s.queue| + 1 && Carriers(s') == Carriers(s) + [s'.queue[|s.queue|]]
            && s'.tl.value == s.tl.value
            && s'.tl.ix[l] == s.tl.ix[l] + (if l in step.carried || l in step.orphaned then 1 else 0)
            && s'.tl.orphans[l] == s.tl.orphans[l] + (if l in step.orphaned then 1 else 0)
            && ValueOf(s'.queue[|s.queue|], l) == if l in step.carried then [s.tl.ix[l] + 1] else []
  {
  }

  lemma LayerSet(s: State, step: Step, l: nat)
    requires Shape(s) && l < NUM_LAYERS && LayerInv(s, l) && Enabled(s, step) && step.SetFrame?
    ensures Shape(Apply(s, step)) && LayerInv(Apply(s, step), l)
  {
    ShapeKept(s, step);
    SetEffect(s, step, l);
    var v := Values(Carriers(s), l);
    ValuesAppend(Carriers(s), Apply(s, step).queue[|s.queue|], l);
    TracksPush(s.tl.value[l], s.tl.ix[l], s.tl.orphans[l], v);
    assert v + [] == v;
  }

  lemma ReleaseEffect(s: State, step: Step)
    requires Shape(s) && Enabled(s, step) && step.ReleaseLayer?
    ensures var s' := Apply(s, step);
            && Carriers(s) == [s.phase.frame] + s.queue && Carriers(s') == [s'.phase.frame] + s.queue
            && s'.phase.frame == s.phase.frame.(rel := s.phase.frame.rel - {step.layer})
            && s'.tl == s.tl.(value := s.tl.value[step.layer := s.tl.value[step.layer] + 1])
  {
  }

  /** Releasing a layer takes the first value off its list and leaves the other lists alone. */
  lemma ReleaseValues(f: Frame, f': Frame, queue: seq<Frame>, layer: nat, l: nat)
    requires layer in f.rel && f' == f.(rel := f.rel - {layer})
    ensures layer == l ==> Values([f] + queue, l) == [f.rel[l]] + Values([f'] + queue, l)
    ensures layer != l ==> Values([f] + queue, l) == Values([f'] + queue, l)
  {
    ValuesFirst(f, queue, l);
    ValuesFirst(f', queue, l);
    if layer == l { assert ValueOf(f', l) + Values(queue, l) == Values(queue, l); }
  }

  lemma LayerRelease(s: State, step: Step, l: nat)
    requires Shape(s) && l < NUM_LAYERS && LayerInv(s, l) && Enabled(s, step) && step.ReleaseLayer?
    ensures Shape(Apply(s, step)) && LayerInv(Apply(s, step), l)
    ensures step.layer == l ==> s.tl.value[l] < s.phase.frame.rel[l]
    ensures step.layer == l && s.tl.orphans[l] == 0 ==> Apply(s, step).tl.value[l] == s.phase.frame.rel[l]
  {
    ShapeKept(s, step);
    ReleaseEffect(s, step);
    var s' := Apply(s, step);
    ReleaseValues(s.phase.frame, s'.phase.frame, s.queue, step.layer, l);
    if step.layer == l {
      var v := Values(Carriers(s), l);
      TracksPop(s.tl.value[l], s.tl.ix[l], s.tl.orphans[l], v);
      assert v[1..] == Values(Carriers(s'), l);
    }
  }

  lemma LayerQuiet(s: State, step: Step, l: nat)
    requires Shape(s) && l < NUM_LAYERS && LayerInv(s, l) && Enabled(s, step) && !step.SetFrame? && !step.ReleaseLayer?
    ensures Shape(Apply(s, step)) && LayerInv(Apply(s, step), l)
  {
    ShapeKept(s, step);
    var s' := Apply(s, step);
    assert s'.tl == s.tl;
    if step.Finish? {
      assert Carriers(s)[1..] == s.queue == Carriers(s');
      assert Values(Carriers(s), l) == ValueOf(s.phase.frame, l) + Values(s.queue, l) == Values(s.queue, l);
    } else {
      assert Carriers(s') == Carriers(s);
    }
  }

  lemma LayerStep(s: State, step: Step, l: nat)
    requires Shape(s) && l < NUM_LAYERS && LayerInv(s, l) && Enabled(s, step)
    ensures Shape(Apply(s, step)) && LayerInv(Apply(s, step), l)
  {
    match step
    case SetFrame(_, _, _) => LayerSet(s, step, l);
    case ReleaseLayer(_) => LayerRelease(s, step, l);
    case _ => LayerQuiet(s, step, l);
  }

  // ------------------------------------------------------------------ whole runs

  ghost predicate Inv(s: State) {
    Shape(s) && RetireInv(s) && forall l :: 0 <= l < NUM_LAYERS ==> LayerInv(s, l)
  }

  lemma InitialInv(buffers: seq<Surface>)
    requires |buffers| == NUM_DISP_BUFFERS
    ensures Inv(Initial(buffers))
  {
  }

  lemma StepInv(s: State, step: Step)
    requires Inv(s) && Enabled(s, step)
    ensures Inv(Apply(s, step))
  {
    ShapeKept(s, step);
    RetireStep(s, step);
    forall l | 0 <= l < NUM_LAYERS ensures LayerInv(Apply(s, step), l) { LayerStep(s, step, l); }
  }

  lemma {:induction false} RunInv(s: State, run: seq<Step>)
    requires Inv(s) && Legal(s, run)
    ensures Inv(After(s, run))
    decreases |run|
  {
    if run != [] {
      StepInv(s, run[0]);
      RunInv(Apply(s, run[0]), run[1..]);
    }
  }
}
