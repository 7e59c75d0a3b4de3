/** Which frame each step of the retire timeline was taken for.

    The timeline only counts.  The ledger below is history kept beside a run: it tags every surface
    pushed with the frame it shows, follows the tag through recycling, and records how each frame's
    timeline step was taken or lost. */
module RetireLedger {
  import opened Common
  import opened DisplayRing
  import opened Pipeline
  import opened PipelineTheorems
  import SI = SurfaceInvariant
  import TL = Timelines

  /** Frames whose step was taken when they were dropped or when their surface came back, frames
      that ended without one, and set calls that queued nothing. */
  datatype Past = Past(retired: multiset<nat>, recycled: multiset<nat>, missed: multiset<nat>, skipped: multiset<nat>)

  /** The frame a surface was last pushed for, the frames on display, those in the hands of the
      recycle thread and of the composer, and the past ones. */
  datatype Ledger = Ledger(
    shows: map<Surface, nat>, pushed: multiset<nat>, recycler: multiset<nat>, fetcher: multiset<nat>, past: Past)

  const Empty := Ledger(map[], multiset{}, multiset{}, multiset{}, Past(multiset{}, multiset{}, multiset{}, multiset{}))

  /** The frames shown by the surfaces of `got`. */
  function Frames(got: seq<Surface>, shows: map<Surface, nat>): multiset<nat> {
    if got == [] then multiset{}
    else multiset{if got[0] in shows then shows[got[0]] else 0} + Frames(got[1..], shows)
  }

  function Note(led: Ledger, s: State, step: Step): Ledger
    requires Shape(s) && Enabled(s, step)
  {
    match step
    case SetSkipped => led.(past := led.past.(skipped := led.past.skipped + multiset{s.setCall + 1}))
    case Push =>
      led.(shows := led.shows[s.phase.out := s.phase.frame.ix], pushed := led.pushed + multiset{s.phase.frame.ix})
    case CheckpointTimeout => led.(past := led.past.(missed := led.past.missed + multiset{s.phase.frame.ix}))
    case Retire =>
      if s.phase.frame.retireFence then led.(past := led.past.(retired := led.past.retired + multiset{s.phase.frame.ix}))
      else led.(past := led.past.(missed := led.past.missed + multiset{s.phase.frame.ix}))
    case Take(who, got) =>
      var f := Frames(got, led.shows);
      if who.RecycleThread? then led.(pushed := led.pushed - f, recycler := f)
      else led.(pushed := led.pushed - f, fetcher := f)
    case Signal(who) =>
      if who.RecycleThread?
      then led.(past := led.past.(recycled := led.past.recycled + led.recycler), recycler := multiset{})
      else led.(past := led.past.(recycled := led.past.recycled + led.fetcher), fetcher := multiset{})
    case _ => led
  }

  ghost function LedgerAfter(s: State, led: Ledger, run: seq<Step>): Ledger
    requires Shape(s) && Legal(s, run)
    decreases |run|
  {
    if run == [] then led
    else
      ShapeKept(s, run[0]);
      LedgerAfter(Apply(s, run[0]), Note(led, s, run[0]), run[1..])
  }

  // ------------------------------------------------------------------ every frame is in one place

  /** The first `n` set calls. */
  function Calls(n: nat): multiset<nat> {
    if n == 0 then multiset{} else Calls(n - 1) + multiset{n}
  }

  lemma {:induction false} CallsOnce(n: nat, f: nat)
    ensures Calls(n)[f] == if 1 <= f <= n then 1 else 0
  {
    if n > 0 { CallsOnce(n - 1, f); }
  }

  function Indices(fs: seq<Frame>): multiset<nat> {
    if fs == [] then multiset{} else multiset{fs[0].ix} + Indices(fs[1..])
  }

  lemma IndicesFirst(f: Frame, fs: seq<Frame>)
    ensures Indices([f] + fs) == multiset{f.ix} + Indices(fs)
  {
    assert ([f] + fs)[1..] == fs;
  }

  lemma {:induction false} IndicesLast(fs: seq<Frame>, f: Frame)
    ensures Indices(fs + [f]) == Indices(fs) + multiset{f.ix}
  {
    if fs == [] {
      IndicesFirst(f, []);
      assert [f] + [] == fs + [f] == [f];
    } else {
      IndicesLast(fs[1..], f);
      IndicesFirst(fs[0], fs[1..] + [f]);
      Assoc([fs[0]], fs[1..], [f]);
      assert [fs[0]] + fs[1..] == fs;
    }
  }

  lemma {:induction false} IndicesBound(fs: seq<Frame>, lo: nat)
    requires forall i :: 0 <= i < |fs| ==> lo < fs[i].ix
    ensures forall f :: f in Indices(fs) ==> lo < f
  {
    if fs != [] { IndicesBound(fs[1..], lo); }
  }

  /** Frames on display or on their way back. */
  function Out(led: Ledger): multiset<nat> { led.pushed + led.recycler + led.fetcher }

  function HeldBy(led: Ledger, who: Actor): multiset<nat> {
    if who.RecycleThread? then led.recycler else led.fetcher
  }

  /** Frames whose timeline step has been taken. */
  function Stepped(led: Ledger): multiset<nat> { led.past.retired + led.past.recycled }

  /** Every frame the ledger knows. */
  function Known(led: Ledger): multiset<nat> { Out(led) + Stepped(led) + led.past.missed + led.past.skipped }

  ghost predicate Law(s: State, led: Ledger) {
    Calls(s.setCall) == Known(led) + Indices(TL.Undecided(s))
  }

  ghost predicate Counts(s: State, led: Ledger) {
    && s.ret.value == |Stepped(led)|
    && s.ret.missed == |led.past.missed| && s.ret.skipped == |led.past.skipped|
    && |led.recycler| == TL.HandCount(s.disp.recycler) && |led.fetcher| == TL.HandCount(s.disp.fetcher)
  }

  /** Different surfaces on display show different frames on display. */
  ghost predicate Tagged(s: State, led: Ledger) {
    && (forall x :: x in s.disp.pushed ==> x in led.shows && led.shows[x] in led.pushed)
    && (forall x, y :: x in s.disp.pushed && y in s.disp.pushed && x != y ==> led.shows[x] != led.shows[y])
  }

  ghost predicate Decided(s: State, led: Ledger) {
    forall f :: f in Out(led) + Stepped(led) ==> f <= s.ret.lastDone
  }

  ghost predicate Inv(s: State, led: Ledger) {
    Law(s, led) && Counts(s, led) && Tagged(s, led) && Decided(s, led)
  }

  // ------------------------------------------------------------------ steps

  lemma Ended(s: State, step: Step)
    requires Shape(s) && Enabled(s, step) && TL.Ends(step)
    ensures Indices(TL.Undecided(s)) == multiset{s.phase.frame.ix} + Indices(TL.Undecided(Apply(s, step)))
    ensures s.phase.frame in TL.Undecided(s)
  {
    assert TL.Undecided(s) == [s.phase.frame] + s.queue;
    assert TL.Undecided(Apply(s, step)) == s.queue;
    IndicesFirst(s.phase.frame, s.queue);
  }

  /** A frame not decided yet is in no other place. */
  lemma OnlyThere(s: State, led: Ledger, f: nat)
    requires Law(s, led) && f in Indices(TL.Undecided(s))
    ensures f !in Out(led) && f !in Stepped(led)
  {
    CallsOnce(s.setCall, f);
  }

  lemma EndNote(s: State, led: Ledger, step: Step)
    requires Shape(s) && Enabled(s, step) && TL.Ends(step)
    ensures var led' := Note(led, s, step);
            && Known(led') == Known(led) + multiset{s.phase.frame.ix}
            && (forall f :: f in Out(led') + Stepped(led') ==> f == s.phase.frame.ix || f in Out(led) + Stepped(led))
            && led'.recycler == led.recycler && led'.fetcher == led.fetcher
  {
  }

  lemma EndCounts(s: State, led: Ledger, step: Step)
    requires Shape(s) && Counts(s, led) && Enabled(s, step) && TL.Ends(step)
    ensures Counts(Apply(s, step), Note(led, s, step))
  {
    var led' := Note(led, s, step);
    var one := multiset{s.phase.frame.ix};
    if step.Retire? && s.phase.frame.retireFence { assert Stepped(led') == Stepped(led) + one; }
    else { assert Stepped(led') == Stepped(led); }
  }

  lemma EndTags(s: State, led: Ledger, step: Step)
    requires SI.Inv(s) && Tagged(s, led) && Enabled(s, step) && TL.Ends(step) && s.phase.frame.ix !in Out(led)
    ensures Tagged(Apply(s, step), Note(led, s, step))
  {
    if step.Push? {
      HeldNotShown(s);
      PushTags(s, led);
    }
  }

  lemma EndDecided(s: State, led: Ledger, step: Step)
    requires Shape(s) && TL.RetireInv(s) && Decided(s, led) && Enabled(s, step) && TL.Ends(step)
    ensures Decided(Apply(s, step), Note(led, s, step))
  {
    EndNote(s, led, step);
    EndIndex(s, step);
  }

  /** The frame that ends is later than every frame decided before. */
  lemma EndIndex(s: State, step: Step)
    requires Shape(s) && TL.RetireInv(s) && Enabled(s, step) && TL.Ends(step)
    ensures s.ret.lastDone < s.phase.frame.ix == Apply(s, step).ret.lastDone
  {
    EndDone(s, step);
    FirstUndecided(s);
  }

  lemma EndDone(s: State, step: Step)
    requires Shape(s) && Enabled(s, step) && TL.Ends(step)
    ensures Apply(s, step).ret.lastDone == s.phase.frame.ix
    ensures !s.phase.Waiting? && !s.phase.Closing?
  {
  }

  lemma FirstUndecided(s: State)
    requires Shape(s) && TL.RetireInv(s) && !s.phase.Waiting? && !s.phase.Closing?
    ensures s.ret.lastDone < s.phase.frame.ix
  {
    assert TL.Undecided(s)[0] == s.phase.frame;
  }

  lemma EndLaw(s: State, led: Ledger, step: Step)
    requires Shape(s) && Law(s, led) && Enabled(s, step) && TL.Ends(step)
    ensures Law(Apply(s, step), Note(led, s, step))
  {
    Ended(s, step);
    EndNote(s, led, step);
    assert Apply(s, step).setCall == s.setCall;
  }

  lemma EndStep(s: State, led: Ledger, step: Step)
    requires SI.Inv(s) && TL.Inv(s) && Inv(s, led) && Enabled(s, step) && TL.Ends(step)
    ensures Inv(Apply(s, step), Note(led, s, step))
  {
    Ended(s, step);
    OnlyThere(s, led, s.phase.frame.ix);
    EndLaw(s, led, step);
    EndCounts(s, led, step);
    EndTags(s, led, step);
    EndDecided(s, led, step);
  }

  lemma HeldNotShown(s: State)
    requires SI.Inv(s) && s.phase.Holding?
    ensures s.phase.out !in s.disp.pushed
  {
    assert HeldBag(s.phase)[s.phase.out] == 1;
    assert Live(s)[s.phase.out] <= 1;
  }

  lemma PushTags(s: State, led: Ledger)
    requires Shape(s) && Tagged(s, led) && Enabled(s, Push) && s.phase.frame.ix !in Out(led) && s.phase.out !in s.disp.pushed
    ensures Tagged(Apply(s, Push), Note(led, s, Push))
  {
    var led' := Note(led, s, Push);
    assert forall x :: x in Apply(s, Push).disp.pushed ==> x == s.phase.out || x in s.disp.pushed;
    assert forall x :: x in s.disp.pushed ==> led'.shows[x] == led.shows[x] && led.shows[x] in led.pushed;
    assert s.phase.frame.ix !in led.pushed;
  }

  lemma QueueStep(s: State, led: Ledger, step: Step)
    requires Shape(s) && Inv(s, led) && Enabled(s, step) && (step.SetFrame? || step.SetSkipped? || step.Pop?)
    ensures Inv(Apply(s, step), Note(led, s, step))
  {
    QueueKeeps(s, led, step);
    QueueNote(s, led, step);
    if step.Pop? { Kept(s, led, Apply(s, step), Note(led, s, step)); }
    else { Grown(s, led, Apply(s, step), Note(led, s, step), step.SetSkipped?); }
  }

  lemma Kept(s: State, led: Ledger, s': State, led': Ledger)
    requires Inv(s, led) && Counts(s', led')
    requires s'.setCall == s.setCall && s'.disp == s.disp && s'.ret.lastDone == s.ret.lastDone
    requires Known(led') == Known(led) && Indices(TL.Undecided(s')) == Indices(TL.Undecided(s))
    requires Out(led') == Out(led) && Stepped(led') == Stepped(led) && led'.shows == led.shows && led'.pushed == led.pushed
    ensures Inv(s', led')
  {
  }

  /** One more set call is either queued or skipped. */
  lemma Grown(s: State, led: Ledger, s': State, led': Ledger, skipped: bool)
    requires Inv(s, led) && Counts(s', led')
    requires s'.setCall == s.setCall + 1 && s'.disp == s.disp && s'.ret.lastDone == s.ret.lastDone
    requires if skipped then Known(led') == Known(led) + multiset{s.setCall + 1} else Known(led') == Known(led)
    requires if skipped then Indices(TL.Undecided(s')) == Indices(TL.Undecided(s))
             else Indices(TL.Undecided(s')) == Indices(TL.Undecided(s)) + multiset{s.setCall + 1}
    requires Out(led') == Out(led) && Stepped(led') == Stepped(led) && led'.shows == led.shows && led'.pushed == led.pushed
    ensures Inv(s', led')
  {
    GrownLaw(s, led, s', led', skipped);
  }

  lemma GrownLaw(s: State, led: Ledger, s': State, led': Ledger, skipped: bool)
    requires Law(s, led) && s'.setCall == s.setCall + 1
    requires if skipped then Known(led') == Known(led) + multiset{s.setCall + 1} else Known(led') == Known(led)
    requires if skipped then Indices(TL.Undecided(s')) == Indices(TL.Undecided(s))
             else Indices(TL.Undecided(s')) == Indices(TL.Undecided(s)) + multiset{s.setCall + 1}
    ensures Law(s', led')
  {
    OneMore(Known(led), Indices(TL.Undecided(s)), multiset{s.setCall + 1});
  }

  lemma OneMore(known: multiset<nat>, undecided: multiset<nat>, one: multiset<nat>)
    ensures (known + one) + undecided == (known + undecided) + one == known + (undecided + one)
  {
  }

  lemma QueueNote(s: State, led: Ledger, step: Step)
    requires Shape(s) && Counts(s, led) && Enabled(s, step) && (step.SetFrame? || step.SetSkipped? || step.Pop?)
    ensures Counts(Apply(s, step), Note(led, s, step))
    ensures if step.SetSkipped? then Known(Note(led, s, step)) == Known(led) + multiset{s.setCall + 1}
            else Known(Note(led, s, step)) == Known(led)
    ensures Note(led, s, step).shows == led.shows && Note(led, s, step).pushed == led.pushed
  {
  }

  lemma QueueKeeps(s: State, led: Ledger, step: Step)
    requires Shape(s) && Enabled(s, step) && (step.SetFrame? || step.SetSkipped? || step.Pop?)
    ensures var s', led' := Apply(s, step), Note(led, s, step);
            && s'.disp == s.disp && s'.ret.value == s.ret.value && s'.ret.missed == s.ret.missed
            && s'.ret.lastDone == s.ret.lastDone && Out(led') == Out(led) && Stepped(led') == Stepped(led)
            && s'.setCall == s.setCall + (if step.Pop? then 0 else 1)
            && (if step.SetFrame? then Indices(TL.Undecided(s')) == Indices(TL.Undecided(s)) + multiset{s.setCall + 1}
                else Indices(TL.Undecided(s')) == Indices(TL.Undecided(s)))
  {
    var s' := Apply(s, step);
    if step.SetFrame? {
      assert TL.Undecided(s') == TL.Undecided(s) + [s'.queue[|s.queue|]];
      IndicesLast(TL.Undecided(s), s'.queue[|s.queue|]);
    } else {
      assert TL.Undecided(s') == TL.Undecided(s);
    }
  }

  /** Distinct surfaces that show distinct frames stand for as many frames. */
  lemma {:induction false} FramesOnce(got: seq<Surface>, shows: map<Surface, nat>, f: nat)
    requires Distinct(got) && forall x :: x in got ==> x in shows
    requires forall x, y :: x in got && y in got && x != y ==> shows[x] != shows[y]
    ensures |Frames(got, shows)| == |got|
    ensures Frames(got, shows)[f] == if exists x :: x in got && shows[x] == f then 1 else 0
  {
    if got != [] {
      FramesOnce(got[1..], shows, f);
      assert forall x :: x in got <==> x == got[0] || x in got[1..];
      assert got[0] !in got[1..];
    }
  }

  lemma {:induction false} DistinctIn(got: seq<Surface>)
    requires forall x :: multiset(got)[x] <= 1
    ensures Distinct(got)
  {
    if got != [] {
      assert got == [got[0]] + got[1..];
      assert forall x :: multiset(got[1..])[x] <= multiset(got)[x];
      DistinctIn(got[1..]);
      assert got[0] !in multiset(got[1..]);
      assert forall j :: 0 < j < |got| ==> got[j] == got[1..][j - 1];
    }
  }

  /** Frames of surfaces taken off the display are frames on display, and no surface left there
      shows any of them. */
  lemma TakenFrames(pushed: multiset<Surface>, shows: map<Surface, nat>, frames: multiset<nat>, got: seq<Surface>)
    requires multiset(got) <= pushed && forall x :: pushed[x] <= 1
    requires forall x :: x in pushed ==> x in shows && shows[x] in frames
    requires forall x, y :: x in pushed && y in pushed && x != y ==> shows[x] != shows[y]
    ensures Frames(got, shows) <= frames && |Frames(got, shows)| == |got|
    ensures forall x :: x in pushed - multiset(got) ==> x in pushed && shows[x] in frames - Frames(got, shows)
  {
    DistinctIn(got);
    assert forall x :: x in got ==> x in multiset(got) && x in pushed;
    assert forall x :: x in pushed - multiset(got) ==> x in pushed && x !in got;
    FramesOnce(got, shows, 0);
    forall n ensures Frames(got, shows)[n] <= frames[n] { FramesOnce(got, shows, n); }
    forall x | x in pushed - multiset(got) ensures x in pushed && shows[x] in frames - Frames(got, shows) {
      FramesOnce(got, shows, shows[x]);
    }
  }

  lemma TakeStep(s: State, led: Ledger, who: Actor, got: seq<Surface>)
    requires SI.Inv(s) && Inv(s, led) && Enabled(s, Take(who, got))
    ensures Inv(Apply(s, Take(who, got)), Note(led, s, Take(who, got)))
  {
    assert forall x :: s.disp.pushed[x] <= Live(s)[x];
    TakenFrames(s.disp.pushed, led.shows, led.pushed, got);
    HandsEmpty(s, led, who);
    TakeKeeps(s, led, who, got);
    TakeKeepsCounts(s, led, who, got);
  }

  lemma TakeKeeps(s: State, led: Ledger, who: Actor, got: seq<Surface>)
    requires Shape(s) && Enabled(s, Take(who, got)) && Frames(got, led.shows) <= led.pushed && |Frames(got, led.shows)| == |got|
    requires HeldBy(led, who) == multiset{}
    ensures var s', led' := Apply(s, Take(who, got)), Note(led, s, Take(who, got));
            && Out(led') == Out(led) && led'.past == led.past && led'.shows == led.shows
            && led'.pushed == led.pushed - Frames(got, led.shows) && s'.disp.pushed == s.disp.pushed - multiset(got)
            && s'.ret == s.ret && s'.setCall == s.setCall && TL.Undecided(s') == TL.Undecided(s)
  {
    TakeOut(led, s, who, got);
    TakeHands(s, who, got);
  }

  lemma TakeKeepsCounts(s: State, led: Ledger, who: Actor, got: seq<Surface>)
    requires Shape(s) && Enabled(s, Take(who, got)) && Frames(got, led.shows) <= led.pushed && |Frames(got, led.shows)| == |got|
    requires HeldBy(led, who) == multiset{} && Counts(s, led)
    ensures Counts(Apply(s, Take(who, got)), Note(led, s, Take(who, got)))
  {
    TakeOut(led, s, who, got);
    TakeHands(s, who, got);
    TakeCounts(s, led, Apply(s, Take(who, got)), Note(led, s, Take(who, got)));
  }

  lemma TakeCounts(s: State, led: Ledger, s': State, led': Ledger)
    requires Counts(s, led) && s'.ret == s.ret && led'.past == led.past
    requires |led'.recycler| == TL.HandCount(s'.disp.recycler) && |led'.fetcher| == TL.HandCount(s'.disp.fetcher)
    ensures Counts(s', led')
  {
    assert Stepped(led') == Stepped(led);
  }

  lemma TakeOut(led: Ledger, s: State, who: Actor, got: seq<Surface>)
    requires Shape(s) && Enabled(s, Take(who, got)) && Frames(got, led.shows) <= led.pushed
    requires HeldBy(led, who) == multiset{}
    ensures var led', f := Note(led, s, Take(who, got)), Frames(got, led.shows);
            && Out(led') == Out(led) && led'.past == led.past && led'.shows == led.shows && led'.pushed == led.pushed - f
            && led'.recycler == (if who.RecycleThread? then f else led.recycler)
            && led'.fetcher == (if who.RecycleThread? then led.fetcher else f)
  {
    var f := Frames(got, led.shows);
    Lent(led.pushed, f, if who.RecycleThread? then led.fetcher else led.recycler);
  }

  lemma Lent(a: multiset<nat>, f: multiset<nat>, b: multiset<nat>)
    requires f <= a
    ensures (a - f) + f + b == a + multiset{} + b && (a - f) + b + f == a + b + multiset{}
  {
  }

  lemma TakeHands(s: State, who: Actor, got: seq<Surface>)
    requires Shape(s) && Enabled(s, Take(who, got))
    ensures var s' := Apply(s, Take(who, got));
            && s'.disp.pushed == s.disp.pushed - multiset(got)
            && s'.disp.recycler == (if who.RecycleThread? then Taken(got, 0) else s.disp.recycler)
            && s'.disp.fetcher == (if who.RecycleThread? then s.disp.fetcher else Taken(got, 0))
            && s'.ret == s.ret && s'.setCall == s.setCall && s'.phase == s.phase && s'.queue == s.queue
  {
  }

  lemma HandsEmpty(s: State, led: Ledger, who: Actor)
    requires Counts(s, led) && HandOf(s.disp, who).Free?
    ensures HeldBy(led, who) == multiset{}
  {
  }

  lemma SignalStep(s: State, led: Ledger, who: Actor)
    requires Shape(s) && Inv(s, led) && Enabled(s, Signal(who))
    ensures Inv(Apply(s, Signal(who)), Note(led, s, Signal(who)))
  {
    SignalKeeps(s, led, who);
  }

  lemma SignalKeeps(s: State, led: Ledger, who: Actor)
    requires Shape(s) && Enabled(s, Signal(who)) && Counts(s, led)
    ensures var s', led' := Apply(s, Signal(who)), Note(led, s, Signal(who));
            && Out(led') + Stepped(led') == Out(led) + Stepped(led) && Known(led') == Known(led)
            && led'.shows == led.shows && led'.pushed == led.pushed && s'.disp.pushed == s.disp.pushed
            && s'.ret.lastDone == s.ret.lastDone && s'.setCall == s.setCall && TL.Undecided(s') == TL.Undecided(s)
            && Counts(s', led')
  {
    var hand := HeldBy(led, who);
    assert Stepped(Note(led, s, Signal(who))) == Stepped(led) + hand;
  }

  predicate Quiet(step: Step) {
    && !TL.Ends(step) && !step.SetFrame? && !step.SetSkipped? && !step.Pop? && !step.Take? && !step.Signal?
  }

  lemma QuietStep(s: State, led: Ledger, step: Step)
    requires Shape(s) && Inv(s, led) && Enabled(s, step) && Quiet(step)
    ensures Inv(Apply(s, step), Note(led, s, step))
  {
    QuietKeeps(s, led, step);
    SameIndices(s, step);
  }

  lemma QuietKeeps(s: State, led: Ledger, step: Step)
    requires Shape(s) && Enabled(s, step) && Quiet(step)
    ensures var s', led' := Apply(s, step), Note(led, s, step);
            && led' == led && s'.disp.pushed == s.disp.pushed && s'.ret == s.ret && s'.setCall == s.setCall && s'.queue == s.queue
            && TL.HandCount(s'.disp.recycler) == TL.HandCount(s.disp.recycler)
            && TL.HandCount(s'.disp.fetcher) == TL.HandCount(s.disp.fetcher)
  {
  }

  lemma SameIndices(s: State, step: Step)
    requires Shape(s) && Enabled(s, step) && Quiet(step)
    ensures Indices(TL.Undecided(Apply(s, step))) == Indices(TL.Undecided(s))
  {
    var s' := Apply(s, step);
    SameFront(s, step);
    if !s.phase.Waiting? && !s.phase.Closing? {
      IndicesFirst(s.phase.frame, s.queue);
      IndicesFirst(s'.phase.frame, s.queue);
    }
  }

  lemma SameFront(s: State, step: Step)
    requires Shape(s) && Enabled(s, step) && Quiet(step)
    ensures var s' := Apply(s, step);
            && s'.queue == s.queue
            && (s'.phase.Waiting? || s'.phase.Closing? <==> s.phase.Waiting? || s.phase.Closing?)
            && (!s.phase.Waiting? && !s.phase.Closing? ==> s'.phase.frame.ix == s.phase.frame.ix)
  {
  }

  lemma StepInv(s: State, led: Ledger, step: Step)
    requires SI.Inv(s) && TL.Inv(s) && Inv(s, led) && Enabled(s, step)
    ensures Inv(Apply(s, step), Note(led, s, step))
  {
    if TL.Ends(step) { EndStep(s, led, step); }
    else if step.SetFrame? || step.SetSkipped? || step.Pop? { QueueStep(s, led, step); }
    else if step.Take? { TakeStep(s, led, step.who, step.got); }
    else if step.Signal? { SignalStep(s, led, step.who); }
    else { QuietStep(s, led, step); }
  }

  lemma {:induction false} RunInv(s: State, led: Ledger, run: seq<Step>)
    requires SI.Inv(s) && TL.Inv(s) && Inv(s, led) && Legal(s, run)
    ensures Inv(After(s, run), LedgerAfter(s, led, run))
    decreases |run|
  {
    if run != [] {
      SI.StepInv(s, run[0]);
      TL.StepInv(s, run[0]);
      StepInv(s, led, run[0]);
      RunInv(Apply(s, run[0]), Note(led, s, run[0]), run[1..]);
    }
  }

  lemma InitialInv(buffers: seq<Surface>)
    requires |buffers| == NUM_DISP_BUFFERS
    ensures Inv(Initial(buffers), Empty)
  {
  }

  lemma Invariants(buffers: seq<Surface>, run: seq<Step>)
    requires Buffers(buffers) && Legal(Initial(buffers), run)
    ensures TL.Inv(After(Initial(buffers), run))
    ensures Inv(After(Initial(buffers), run), LedgerAfter(Initial(buffers), Empty, run))
  {
    PipelineTheorems.Invariants(buffers, run);
    SI.InitialInv(buffers);
    TL.InitialInv(buffers);
    InitialInv(buffers);
    RunInv(Initial(buffers), Empty, run);
  }

  // ------------------------------------------------------------------ counting frames

  /** How many of the frames after `lo` and up to `hi` are in `m`. */
  function Among(m: multiset<nat>, lo: nat, hi: nat): nat
    decreases hi
  {
    if hi <= lo then 0 else Among(m, lo, hi - 1) + if hi in m then 1 else 0
  }

  lemma {:induction false} AmongSplit(m: multiset<nat>, lo: nat, mid: nat, hi: nat)
    requires lo <= mid <= hi
    ensures Among(m, lo, hi) == Among(m, lo, mid) + Among(m, mid, hi)
  {
    if mid < hi { AmongSplit(m, lo, mid, hi - 1); }
  }

  lemma {:induction false} AmongSame(m: multiset<nat>, m': multiset<nat>, lo: nat, hi: nat)
    requires forall f :: lo < f <= hi ==> (f in m <==> f in m')
    ensures Among(m, lo, hi) == Among(m', lo, hi)
  {
    if lo < hi { AmongSame(m, m', lo, hi - 1); }
  }

  ghost predicate OnceWithin(m: multiset<nat>, n: nat) {
    forall f :: m[f] <= if 1 <= f <= n then 1 else 0
  }

  lemma {:induction false} AmongAll(m: multiset<nat>, n: nat)
    requires OnceWithin(m, n)
    ensures |m| == Among(m, 0, n)
  {
    if n == 0 {
      assert m == multiset{};
    } else {
      var rest := m - multiset{n};
      AmongAll(rest, n - 1);
      AmongSame(m, rest, 0, n - 1);
      SizeWithout(m, n);
    }
  }

  lemma SizeWithout(m: multiset<nat>, n: nat)
    requires m[n] <= 1
    ensures |m| == |m - multiset{n}| + if n in m then 1 else 0
  {
    if n in m { assert m == (m - multiset{n}) + multiset{n}; } else { assert m == m - multiset{n}; }
  }

  lemma SteppedOnce(s: State, led: Ledger)
    requires Law(s, led)
    ensures OnceWithin(Stepped(led), s.setCall)
  {
    forall f: nat ensures Stepped(led)[f] <= if 1 <= f <= s.setCall then 1 else 0 { CallsOnce(s.setCall, f); }
  }

  lemma {:induction false} AmongExtremes(m: multiset<nat>, lo: nat, hi: nat)
    requires lo <= hi
    ensures Among(m, lo, hi) <= hi - lo
    ensures Among(m, lo, hi) == hi - lo <==> forall f :: lo < f <= hi ==> f in m
    ensures Among(m, lo, hi) == 0 <==> forall f :: lo < f <= hi ==> f !in m
  {
    if lo < hi { AmongExtremes(m, lo, hi - 1); }
  }

  // ------------------------------------------------------------------ theorems

  /** Every frame of every run is in exactly one place: on display or on its way back, past its
      timeline step, lost to it, or not decided yet. */
  lemma EveryFrameOnce(buffers: seq<Surface>, run: seq<Step>, f: nat)
    requires Buffers(buffers) && Legal(Initial(buffers), run)
    ensures var s, led := After(Initial(buffers), run), LedgerAfter(Initial(buffers), Empty, run);
            (Out(led) + Stepped(led) + led.past.missed + led.past.skipped + Indices(TL.Undecided(s)))[f]
            == if 1 <= f <= s.setCall then 1 else 0
  {
    Invariants(buffers, run);
    CallsOnce(After(Initial(buffers), run).setCall, f);
  }

  /** Exactly when the retire fence of set call `v` has signalled: as many later frames have taken
      their timeline step as frames up to `v` have not. */
  lemma RetireSignalledIff(buffers: seq<Surface>, run: seq<Step>, v: nat)
    requires Buffers(buffers) && Legal(Initial(buffers), run) && v <= After(Initial(buffers), run).setCall
    ensures var s, led := After(Initial(buffers), run), LedgerAfter(Initial(buffers), Empty, run);
            v <= s.ret.value <==> Among(Stepped(led), v, s.setCall) >= v - Among(Stepped(led), 0, v)
  {
    Invariants(buffers, run);
    var s, led := After(Initial(buffers), run), LedgerAfter(Initial(buffers), Empty, run);
    SteppedOnce(s, led);
    AmongAll(Stepped(led), s.setCall);
    AmongSplit(Stepped(led), 0, v, s.setCall);
  }

  /** A frame still out whose retire fence has signalled. */
  ghost predicate Early(s: State, led: Ledger, v: nat) {
    v in Out(led) && v <= s.ret.value
  }

  /** No surface came back before one that was pushed earlier and is still out. */
  ghost predicate InOrder(led: Ledger) {
    forall w, v :: w in led.past.recycled && v in Out(led) ==> w < v
  }

  /** With nothing skipped or missed and surfaces coming back in order, some frame still out has an
      early fence if and only if a frame later than the oldest of them was dropped.  Frames are
      decided in order, so that is a drop since the oldest was pushed. */
  lemma EarlyIffDropped(buffers: seq<Surface>, run: seq<Step>, oldest: nat)
    requires Buffers(buffers) && Legal(Initial(buffers), run)
    requires After(Initial(buffers), run).ret.missed == After(Initial(buffers), run).ret.skipped == 0
    requires InOrder(LedgerAfter(Initial(buffers), Empty, run))
    requires oldest in Out(LedgerAfter(Initial(buffers), Empty, run))
    requires forall v :: v in Out(LedgerAfter(Initial(buffers), Empty, run)) ==> oldest <= v
    ensures var s, led := After(Initial(buffers), run), LedgerAfter(Initial(buffers), Empty, run);
            (exists v :: Early(s, led, v)) <==> exists w :: w in led.past.retired && w > oldest
  {
    Invariants(buffers, run);
    var s, led := After(Initial(buffers), run), LedgerAfter(Initial(buffers), Empty, run);
    var n := s.setCall;
    EveryFrameOnce(buffers, run, oldest);
    UpToOldest(s, led, oldest);
    RetireSignalledIff(buffers, run, oldest);
    AmongExtremes(Stepped(led), oldest, n);
    SteppedOnce(s, led);
    AmongAll(Stepped(led), n);
    AmongSplit(Stepped(led), 0, oldest, n);
    if w :| w in led.past.retired && w > oldest {
      CallsOnce(n, w);
      assert w in Stepped(led) && w in Calls(n);
      assert Early(s, led, oldest);
    } else {
      assert forall f :: oldest < f <= n ==> f !in Stepped(led);
      assert s.ret.value == oldest - 1;
    }
  }

  /** Of the frames up to the oldest still out, exactly that one has not taken its step. */
  lemma UpToOldest(s: State, led: Ledger, oldest: nat)
    requires TL.Inv(s) && Inv(s, led) && s.ret.missed == s.ret.skipped == 0
    requires oldest in Out(led) && forall v :: v in Out(led) ==> oldest <= v
    ensures oldest >= 1 && Among(Stepped(led), 0, oldest) == oldest - 1
  {
    OutNotStepped(s, led, oldest);
    assert led.past.missed == multiset{} && led.past.skipped == multiset{};
    IndicesBound(TL.Undecided(s), s.ret.lastDone);
    forall f | 0 < f <= oldest - 1 ensures f in Stepped(led) { BelowOldest(s, led, oldest, f); }
    AmongExtremes(Stepped(led), 0, oldest - 1);
    AmongSplit(Stepped(led), 0, oldest - 1, oldest);
  }

  lemma OutNotStepped(s: State, led: Ledger, v: nat)
    requires Law(s, led) && v in Out(led)
    ensures 1 <= v <= s.setCall && v !in Stepped(led)
  {
    assert v in Known(led) && v in Calls(s.setCall);
    CallsOnce(s.setCall, v);
  }

  lemma BelowOldest(s: State, led: Ledger, oldest: nat, f: nat)
    requires Law(s, led) && Decided(s, led) && led.past.missed == led.past.skipped == multiset{}
    requires forall i :: i in Indices(TL.Undecided(s)) ==> s.ret.lastDone < i
    requires oldest in Out(led) && (forall v :: v in Out(led) ==> oldest <= v) && 0 < f < oldest <= s.setCall
    ensures f in Stepped(led)
  {
    CallsOnce(s.setCall, f);
    assert f in Known(led) + Indices(TL.Undecided(s));
    assert oldest in Out(led) + Stepped(led);
  }

  // ------------------------------------------------------------------ recycling in order

  /** What a thread is about to signal is older than everything else still out. */
  ghost predicate HandIsOldest(led: Ledger, who: Actor) {
    forall w, v :: w in HeldBy(led, who) && v in Out(led) && v !in HeldBy(led, who) ==> w < v
  }

  /** The display hands surfaces back oldest first, and the two threads signal them so. */
  ghost predicate OldestFirst(s: State, led: Ledger, run: seq<Step>)
    requires Shape(s) && Legal(s, run)
    decreases |run|
  {
    run == [] ||
    (ShapeKept(s, run[0]);
     (run[0].Signal? ==> HandIsOldest(led, run[0].who)) && OldestFirst(Apply(s, run[0]), Note(led, s, run[0]), run[1..]))
  }

  lemma SignalInOrder(s: State, led: Ledger, who: Actor)
    requires Shape(s) && Inv(s, led) && InOrder(led) && HandIsOldest(led, who) && Enabled(s, Signal(who))
    ensures InOrder(Note(led, s, Signal(who)))
  {
    var led' := Note(led, s, Signal(who));
    forall w, v | w in led'.past.recycled && v in Out(led') ensures w < v {
      CallsOnce(s.setCall, v);
      assert Known(led)[v] <= 1;
      assert v in Out(led) && v !in HeldBy(led, who);
    }
  }

  lemma PushInOrder(s: State, led: Ledger)
    requires Shape(s) && TL.RetireInv(s) && Decided(s, led) && InOrder(led) && Enabled(s, Push)
    ensures InOrder(Note(led, s, Push))
  {
    assert TL.Undecided(s)[0] == s.phase.frame;
    var led' := Note(led, s, Push);
    forall w, v | w in led'.past.recycled && v in Out(led') ensures w < v {
      assert w in Out(led) + Stepped(led);
      assert v == s.phase.frame.ix || v in Out(led);
    }
  }

  lemma StepInOrder(s: State, led: Ledger, step: Step)
    requires SI.Inv(s) && TL.Inv(s) && Inv(s, led) && InOrder(led) && Enabled(s, step)
    requires step.Signal? ==> HandIsOldest(led, step.who)
    ensures InOrder(Note(led, s, step))
  {
    if step.Signal? { SignalInOrder(s, led, step.who); }
    else if step.Push? { PushInOrder(s, led); }
    else if step.Take? {
      assert forall x :: s.disp.pushed[x] <= Live(s)[x];
      TakenFrames(s.disp.pushed, led.shows, led.pushed, step.got);
      HandsEmpty(s, led, step.who);
      TakeOut(led, s, step.who, step.got);
    }
  }

  /** A run that recycles oldest first leaves no surface overtaken. */
  lemma {:induction false} OldestFirstInOrder(s: State, led: Ledger, run: seq<Step>)
    requires SI.Inv(s) && TL.Inv(s) && Inv(s, led) && InOrder(led) && Legal(s, run) && OldestFirst(s, led, run)
    ensures InOrder(LedgerAfter(s, led, run))
    decreases |run|
  {
    if run != [] {
      SI.StepInv(s, run[0]);
      TL.StepInv(s, run[0]);
      StepInv(s, led, run[0]);
      StepInOrder(s, led, run[0]);
      OldestFirstInOrder(Apply(s, run[0]), Note(led, s, run[0]), run[1..]);
    }
  }

  /** So in a run that recycles oldest first, without skipped set calls or missed frames, a frame
      still out has an early fence exactly if some frame was dropped since the oldest of them was
      pushed. */
  lemma OldestFirstEarlyIff(buffers: seq<Surface>, run: seq<Step>, oldest: nat)
    requires Buffers(buffers) && Legal(Initial(buffers), run) && OldestFirst(Initial(buffers), Empty, run)
    requires After(Initial(buffers), run).ret.missed == After(Initial(buffers), run).ret.skipped == 0
    requires oldest in Out(LedgerAfter(Initial(buffers), Empty, run))
    requires forall v :: v in Out(LedgerAfter(Initial(buffers), Empty, run)) ==> oldest <= v
    ensures var s, led := After(Initial(buffers), run), LedgerAfter(Initial(buffers), Empty, run);
            (exists v :: Early(s, led, v)) <==> exists w :: w in led.past.retired && w > oldest
  {
    SI.InitialInv(buffers);
    TL.InitialInv(buffers);
    InitialInv(buffers);
    OldestFirstInOrder(Initial(buffers), Empty, run);
    EarlyIffDropped(buffers, run, oldest);
  }
}
