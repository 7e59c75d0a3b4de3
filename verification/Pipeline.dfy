/** The primary-display composition pipeline as a transition system.

    One set call queues a frame; the composer thread pops it, fetches a display surface,
    composes and pushes it; the recycle thread, and the composer itself when it runs out of
    surfaces, hand pushed surfaces back through the ring.  Every step below is one critical
    section or one foreign call, so a run is an arbitrary interleaving of the three threads. */
module Pipeline {
  import opened DisplayRing

  /** Graphics client layers, each with its own release timeline. */
  const NUM_LAYERS: nat := 11

  /** A queued work item: the set call that made it, whether its retire fence exists, and the
      release-fence value it carries for each layer not yet released. */
  datatype Frame = Frame(ix: nat, retireFence: bool, rel: map<nat, nat>)

  /** A thread inside hwc_recycle_now: surfaces taken back and not stored yet, with the number of
      those already stored, then the timeline step still owed. */
  datatype Hand = Free | Taken(got: seq<Surface>, stored: nat) | Owing(n: nat)

  datatype Phase =
    | Waiting
    | Popped(frame: Frame)
    | Swapping(frame: Frame, done: nat)
    | Fetching(frame: Frame)
    | Peeked(frame: Frame)
    | Reading(frame: Frame, slot: nat, read: Surface)
    | Holding(frame: Frame, out: Surface)
    | RetireDue(frame: Frame)
    | Closing(frame: Frame)

  datatype Actor = RecycleThread | ComposerThread

  /** The display side: `buffers` are the display buffers, `owners` those the ring was last
      initialised with, `lost` the owners that left circulation.  `replaced` counts the leading
      buffers that failed mode toggles have replaced or emptied since then. */
  datatype Display = Display(
    ring: Ring, buffers: seq<Surface>, owners: seq<Surface>, replaced: nat,
    pushed: multiset<Surface>, lost: multiset<Surface>, recycler: Hand, fetcher: Hand)

  /** The retire timeline and its history: frames that ended without a timeline step, set calls
      that queued nothing, and the last frame that ended. */
  datatype Retiring = Retiring(value: nat, missed: nat, skipped: nat, lastDone: nat)

  /** Per layer: fences created, the release timeline, and fences no frame will ever release. */
  datatype Releasing = Releasing(ix: seq<nat>, value: seq<nat>, orphans: seq<nat>)

  datatype State = State(
    setCall: nat, queue: seq<Frame>, phase: Phase, disp: Display, ret: Retiring, tl: Releasing)

  datatype Step =
    | SetFrame(retireOk: bool, carried: set<nat>, orphaned: set<nat>)
    | SetSkipped
    | Pop
    | SwapBuffer(new_: Surface)
    | SwapFailed(nulled: bool)
    | Reinit
    | BeginFetch
    | Peek
    | NoSurface
    | ReadSlot
    | Dereference
    | Take(who: Actor, got: seq<Surface>)
    | Store(who: Actor)
    | Signal(who: Actor)
    | PutBack
    | Push
    | PushFailed
    | CheckpointTimeout
    | Retire
    | ReleaseLayer(layer: nat)
    | Finish

  function Initial(buffers: seq<Surface>): (s: State)
  {
    var zero := seq(NUM_LAYERS, _ => 0);
    State(0, [], Waiting,
          Display(Filled(buffers), buffers, buffers, 0, multiset{}, multiset{}, Free, Free),
          Retiring(0, 0, 0, 0), Releasing(zero, zero, zero))
  }

  function HandOf(d: Display, who: Actor): Hand {
    if who.RecycleThread? then d.recycler else d.fetcher
  }

  function WithHand(d: Display, who: Actor, h: Hand): Display {
    if who.RecycleThread? then d.(recycler := h) else d.(fetcher := h)
  }

  /** The recycling loop stores one surface a turn, against the display buffers as they then are. */
  function First(got: seq<Surface>): seq<Surface> {
    if got == [] then [] else [got[0]]
  }

  function AfterStore(h: Hand): Hand
    requires h.Taken?
  {
    if |h.got| <= 1 then Owing(|h.got| + h.stored) else Taken(h.got[1..], h.stored + 1)
  }

  /** Where every surface the protocol still knows about is. */
  function HandBag(h: Hand): multiset<Surface> {
    if h.Taken? then multiset(h.got) else multiset{}
  }

  function HeldBag(p: Phase): multiset<Surface> {
    match p
    case Reading(_, _, v) => multiset{v}
    case Holding(_, v) => multiset{v}
    case _ => multiset{}
  }

  function Away(s: State): multiset<Surface> {
    s.disp.pushed + HandBag(s.disp.recycler) + HandBag(s.disp.fetcher)
  }

  function Live(s: State): multiset<Surface>
    requires s.disp.ring.Valid()
  {
    multiset(s.disp.ring.Contents()) + HeldBag(s.phase) + Away(s) + s.disp.lost
  }

  // ------------------------------------------------------------------ steps

  /** Fence values for a new frame: one past the layer's current index. */
  function NewFences(s: State, carried: set<nat>): (m: map<nat, nat>)
    requires |s.tl.ix| == NUM_LAYERS
  {
    map l | l in carried && l < NUM_LAYERS :: s.tl.ix[l] + 1
  }

  /** Counters bumped on every layer of `layers`. */
  function Bumped(c: seq<nat>, layers: set<nat>): (r: seq<nat>)
  {
    seq(|c|, l requires 0 <= l < |c| => if l in layers then c[l] + 1 else c[l])
  }

  predicate Shape(s: State) {
    && s.disp.ring.Valid()
    && |s.disp.buffers| == |s.disp.owners| == NUM_DISP_BUFFERS
    && |s.tl.ix| == |s.tl.value| == |s.tl.orphans| == NUM_LAYERS
    && (s.phase.Reading? ==> s.phase.slot < NUM_DISP_BUFFERS)
    && (s.phase.Swapping? ==> s.phase.done <= NUM_DISP_BUFFERS)
    && (s.phase.Peeked? ==> s.disp.ring.count > 0)
    && s.disp.replaced <= NUM_DISP_BUFFERS
  }

  /** The foreign contracts: a new surface handle is not one still in circulation, and the
      display client hands back surfaces that were pushed to it. */
  predicate Enabled(s: State, step: Step)
    requires Shape(s)
  {
    match step
    case SetFrame(_, carried, orphaned) => carried !! orphaned
    case SetSkipped => true
    case Pop => s.phase.Waiting? && s.queue != []
    case SwapBuffer(n) =>
      && (s.phase.Popped? || (s.phase.Swapping? && s.phase.done < NUM_DISP_BUFFERS))
      && n != 0 && n !in Live(s) && n !in s.disp.buffers && n !in s.disp.owners
    case SwapFailed(nulled) => s.phase.Popped? || (s.phase.Swapping? && s.phase.done < NUM_DISP_BUFFERS && nulled)
    case Reinit => s.phase.Swapping? && s.phase.done == NUM_DISP_BUFFERS
    case BeginFetch => s.phase.Popped?
    case Peek => s.phase.Fetching? && s.disp.fetcher.Free? && s.disp.ring.count > 0
    case NoSurface => s.phase.Fetching? && s.disp.fetcher.Free?
    case ReadSlot => s.phase.Peeked?
    case Dereference => s.phase.Reading?
    case Take(who, got) =>
      && HandOf(s.disp, who).Free? && |got| <= NUM_DISP_BUFFERS && multiset(got) <= s.disp.pushed
      && (who.ComposerThread? ==> s.phase.Fetching?)
    case Store(who) => HandOf(s.disp, who).Taken?
    case Signal(who) => HandOf(s.disp, who).Owing?
    case PutBack => s.phase.Holding?
    case Push => s.phase.Holding?
    case PushFailed => s.phase.Holding?
    case CheckpointTimeout => s.phase.Holding?
    case Retire => s.phase.RetireDue?
    case ReleaseLayer(l) => (s.phase.Holding? || s.phase.Closing?) && l in s.phase.frame.rel && l < NUM_LAYERS
    case Finish => s.phase.Closing? && s.phase.frame.rel == map[]
  }

  function Apply(s: State, step: Step): (s': State)
    requires Shape(s) && Enabled(s, step)
  {
    match step
    case SetFrame(ok, carried, orphaned) =>
      s.(setCall := s.setCall + 1,
         queue := s.queue + [Frame(s.setCall + 1, ok, NewFences(s, carried))],
         tl := s.tl.(ix := Bumped(s.tl.ix, carried + orphaned), orphans := Bumped(s.tl.orphans, orphaned)))
    case SetSkipped => s.(setCall := s.setCall + 1, ret := s.ret.(skipped := s.ret.skipped + 1))
    case Pop => s.(queue := s.queue[1..], phase := Popped(s.queue[0]))
    case SwapBuffer(n) =>
      var j := if s.phase.Popped? then 0 else s.phase.done;
      s.(disp := s.disp.(buffers := s.disp.buffers[j := n]), phase := Swapping(s.phase.frame, j + 1))
    case SwapFailed(nulled) =>
      var j := if s.phase.Popped? then 0 else s.phase.done;
      var b := if nulled then s.disp.buffers[j := 0] else s.disp.buffers;
      s.(disp := s.disp.(buffers := b, replaced := if nulled && s.disp.replaced <= j then j + 1 else s.disp.replaced), phase := Fetching(s.phase.frame))
    case Reinit =>
      s.(disp := s.disp.(ring := Filled(s.disp.buffers), owners := s.disp.buffers, lost := multiset{}, replaced := 0),
         phase := Fetching(s.phase.frame))
    case BeginFetch => s.(phase := Fetching(s.phase.frame))
    case Peek => s.(phase := Peeked(s.phase.frame))
    case NoSurface => s.(phase := RetireDue(s.phase.frame))
    case ReadSlot =>
      s.(disp := s.disp.(ring := s.disp.ring.ReadCommit()),
         phase := Reading(s.phase.frame, s.disp.ring.rd, s.disp.ring.slots[s.disp.ring.rd]))
    case Dereference => s.(phase := Holding(s.phase.frame, s.disp.ring.slots[s.phase.slot]))
    case Take(who, got) =>
      s.(disp := WithHand(s.disp.(pushed := s.disp.pushed - multiset(got)), who, Taken(got, 0)))
    case Store(who) =>
      var first := First(HandOf(s.disp, who).got);
      s.(disp := WithHand(s.disp.(ring := StoreAll(s.disp.ring, first, s.disp.buffers),
                                  lost := s.disp.lost + multiset(Current(Stale(first, s.disp.buffers), s.disp.owners))),
                          who, AfterStore(HandOf(s.disp, who))))
    case Signal(who) =>
      s.(ret := s.ret.(value := s.ret.value + HandOf(s.disp, who).n), disp := WithHand(s.disp, who, Free))
    case PutBack =>
      s.(disp := s.disp.(ring := s.disp.ring.Write(s.phase.out)), phase := RetireDue(s.phase.frame))
    case Push =>
      s.(disp := s.disp.(pushed := s.disp.pushed + multiset{s.phase.out}),
         ret := s.ret.(lastDone := s.phase.frame.ix), phase := Closing(s.phase.frame))
    case PushFailed =>
      s.(disp := s.disp.(lost := s.disp.lost + multiset{s.phase.out}), phase := RetireDue(s.phase.frame))
    case CheckpointTimeout =>
      s.(disp := s.disp.(lost := s.disp.lost + multiset{s.phase.out}),
         ret := s.ret.(missed := s.ret.missed + 1, lastDone := s.phase.frame.ix), phase := Closing(s.phase.frame))
    case Retire =>
      var r := s.ret.(lastDone := s.phase.frame.ix);
      s.(ret := if s.phase.frame.retireFence then r.(value := r.value + 1) else r.(missed := r.missed + 1),
         phase := Closing(s.phase.frame))
    case ReleaseLayer(l) =>
      var f := s.phase.frame.(rel := s.phase.frame.rel - {l});
      s.(tl := s.tl.(value := s.tl.value[l := s.tl.value[l] + 1]),
         phase := if s.phase.Holding? then Holding(f, s.phase.out) else Closing(f))
    case Finish => s.(phase := Waiting)
  }

  lemma ShapeKept(s: State, step: Step)
    requires Shape(s) && Enabled(s, step)
    ensures Shape(Apply(s, step))
  {
    if step.ReadSlot? { ReadDropsOldest(s.disp.ring); }
  }

  /** A legal run from `s`. */
  ghost predicate Legal(s: State, run: seq<Step>)
    requires Shape(s)
    decreases |run|
  {
    run == [] || (Enabled(s, run[0]) && (ShapeKept(s, run[0]); Legal(Apply(s, run[0]), run[1..])))
  }

  ghost function After(s: State, run: seq<Step>): (t: State)
    requires Shape(s) && Legal(s, run)
    ensures Shape(t)
    decreases |run|
  {
    if run == [] then s else
      ShapeKept(s, run[0]);
      After(Apply(s, run[0]), run[1..])
  }
}
