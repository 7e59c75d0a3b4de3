/** When a primary layer's release fence may be signalled: composition of one frame against the
    2D blitter's queue, over the RGB, YV12 and queue-full paths.

    A checkpoint enters the queue behind the blits submitted so far, and its completion sets one
    binary event that the composer waits for.  The event is never cleared before a wait: that of a
    checkpoint whose wait timed out comes later, and ends the wait of a later checkpoint at once. */
module BlitFences {

  // ------------------------------------------------------------------ the blitter's queue

  /** How a checkpoint ends: the blitter was idle; the wait returned on the event of the checkpoint
      `behind` places before this one, or on the oldest event outstanding if there are not so many;
      the wait timed out; the checkpoint was refused. */
  datatype Answer = Ready | Woken(behind: nat) | TimedOut | Refused {
    predicate Ok() { Ready? || Woken? }
  }

  /** Checkpoints entered, checkpoints known to be reached, and for each layer how many checkpoints
      stood before the last blit that reads it. */
  datatype Queue = Queue(marked: nat, reached: nat, blits: map<nat, nat>) {
    /** Layers with a blit that need not have been executed. */
    function Pending(): set<nat> {
      set l | l in blits && reached <= blits[l]
    }

    /** No event is outstanding. */
    predicate Settled() { reached == marked }

    /** At least `n` events are outstanding. */
    predicate Owes(n: nat) { reached + n <= marked }

    function Submit(layer: nat): Queue { this.(blits := blits[layer := marked]) }

    function Checkpoint(a: Answer): Queue {
      match a
      case Ready => this.(blits := map[])
      case Woken(behind) =>
        this.(marked := marked + 1, reached := if marked + 1 - behind > reached then marked + 1 - behind else reached + 1)
      case TimedOut => this.(marked := marked + 1)
      case Refused => this
    }
  }

  // ------------------------------------------------------------------ reading a log

  /** What the frame's composition does, in order: submit a blit reading a layer's buffer, ask for a
      checkpoint and get an answer, signal a layer's release fence. */
  datatype Event = Submitted(layer: nat) | Checked(answer: Answer) | Released(layer: nat)

  function Next(q: Queue, e: Event): Queue {
    match e
    case Submitted(l) => q.Submit(l)
    case Checked(a) => q.Checkpoint(a)
    case Released(_) => q
  }

  function Read(start: Queue, log: seq<Event>): Queue {
    if log == [] then start else Next(Read(start, log[..|log| - 1]), log[|log| - 1])
  }

  /** No fence is signalled while a blit reading that layer may still be executed. */
  predicate Safe(start: Queue, log: seq<Event>) {
    log == [] ||
    var before, e := log[..|log| - 1], log[|log| - 1];
    Safe(start, before) && (e.Released? ==> e.layer !in Read(start, before).Pending())
  }

  function Signals(log: seq<Event>, l: nat): nat {
    if log == [] then 0 else
      Signals(log[..|log| - 1], l) + if log[|log| - 1] == Released(l) then 1 else 0
  }

  lemma Appended(start: Queue, log: seq<Event>, e: Event)
    ensures Read(start, log + [e]) == Next(Read(start, log), e)
    ensures Safe(start, log + [e]) == (Safe(start, log) && (e.Released? ==> e.layer !in Read(start, log).Pending()))
    ensures forall l: nat :: Signals(log + [e], l) == Signals(log, l) + if e == Released(l) then 1 else 0
  {
    assert (log + [e])[..|log|] == log;
  }

  /** Safety is a statement about every signal: no blit of that layer is pending there. */
  lemma {:induction false} SafeMeans(start: Queue, log: seq<Event>)
    ensures Safe(start, log) <==>
              forall p :: 0 <= p < |log| && log[p].Released? ==> log[p].layer !in Read(start, log[..p]).Pending()
  {
    if log != [] {
      var before := log[..|log| - 1];
      SafeMeans(start, before);
      assert forall p :: 0 <= p < |before| ==> before[..p] == log[..p] && before[p] == log[p];
    }
  }

  lemma {:induction false} MarksGrow(start: Queue, log: seq<Event>, p: nat)
    requires p <= |log|
    ensures Read(start, log[..p]).marked <= Read(start, log).marked
  {
    assert log[..|log|] == log;
    if p < |log| {
      var before := log[..|log| - 1];
      MarksGrow(start, before, p);
      assert before[..p] == log[..p];
    }
  }

  /** Event `p` of the log submits a blit of layer `l`, and the blitter has not been seen idle since. */
  ghost predicate Lasting(log: seq<Event>, p: nat, l: nat) {
    p < |log| && log[p] == Submitted(l) && forall k :: p < k < |log| ==> log[k] != Checked(Ready)
  }

  lemma {:induction false} LastingIsKnown(start: Queue, log: seq<Event>, p: nat, l: nat)
    requires Lasting(log, p, l)
    ensures l in Read(start, log).blits && Read(start, log[..p]).marked <= Read(start, log).blits[l]
  {
    var before := log[..|log| - 1];
    if p < |before| {
      assert before[..p] == log[..p];
      LastingIsKnown(start, before, p, l);
      MarksGrow(start, before, p);
    }
  }

  lemma {:induction false} KnownIsLasting(start: Queue, log: seq<Event>, l: nat) returns (p: nat)
    requires start.blits == map[] && l in Read(start, log).blits
    ensures Lasting(log, p, l) && Read(start, log).blits[l] == Read(start, log[..p]).marked
  {
    var before, last := log[..|log| - 1], log[|log| - 1];
    if last == Submitted(l) {
      p := |before|;
    } else {
      p := KnownIsLasting(start, before, l);
      assert before[..p] == log[..p];
    }
  }

  /** Pending is as intended: a layer is pending exactly if some blit of it was submitted with the
      blitter not idle since and the first checkpoint behind it not known to be reached. */
  lemma PendingMeans(start: Queue, log: seq<Event>, l: nat)
    requires start.blits == map[]
    ensures l in Read(start, log).Pending() <==>
              exists p: nat :: Lasting(log, p, l) && Read(start, log).reached <= Read(start, log[..p]).marked
  {
    if l in Read(start, log).Pending() { var p := KnownIsLasting(start, log, l); }
    if p: nat :| Lasting(log, p, l) && Read(start, log).reached <= Read(start, log[..p]).marked {
      LastingIsKnown(start, log, p, l);
    }
  }

  // ------------------------------------------------------------------ what one frame does

  datatype BlitAnswer = BlitOk | BlitQueueFull | BlitError

  /** A layer of the frame with the answers the hardware will give while it is composed.
      `Untouched` is a layer that reaches no blit: invalid, hidden, skipped or clipped away. */
  datatype Layer =
    | Untouched
    | Rgb(seeded: bool, answer: BlitAnswer, flushed: Answer, retried: bool, covered: Answer)
    | Yv12(seeded: bool, hasPacket: bool, flushed: Answer, written: bool, covered: Answer)

  datatype Config = Config(fenceSupport: bool, allowSimult: bool)

  /** How far a frame has come: the queue, the frame's two flags, whether a checkpoint failed, the
      number of layers whose fences have been signalled, and those signalled over a pending blit. */
  datatype Progress = Progress(queue: Queue, ops: bool, composed: nat, failed: bool, swept: nat, uncovered: set<nat>)

  function Sweep(w: Progress, upTo: nat): Progress {
    if upTo <= w.swept then w
    else w.(swept := upTo, uncovered := w.uncovered + set l | l in w.queue.Pending() && w.swept <= l < upTo)
  }

  function Check(w: Progress, a: Answer): Progress {
    w.(queue := w.queue.Checkpoint(a), failed := w.failed || !a.Ok())
  }

  /** A checkpoint that, if it returns, lets the fences of the layers below `upTo` go. */
  function Flush(w: Progress, a: Answer, upTo: nat): Progress {
    if a.Ok() then Sweep(Check(w, a), upTo) else Check(w, a)
  }

  function Below(i: nat): nat { if i > 0 then i - 1 else 0 }

  /** A blit of layer `i` enters the queue. */
  function Send(w: Progress, i: nat): Progress {
    w.(queue := w.queue.Submit(i))
  }

  function AfterRgb(c: Config, w: Progress, i: nat, a: Layer): Progress
    requires a.Rgb?
  {
    var seeded := w.(ops := w.ops || a.seeded);
    var flushed := if a.answer.BlitQueueFull? then Flush(seeded, a.flushed, Below(i)) else seeded;
    if a.answer.BlitOk? || (a.answer.BlitQueueFull? && a.retried) then SentRgb(c, flushed, i, a.covered) else flushed
  }

  function SentRgb(c: Config, w: Progress, i: nat, covered: Answer): Progress {
    var sent := Send(w, i).(ops := true, composed := w.composed + 1);
    if c.fenceSupport then Flush(sent, covered, i).(ops := !covered.Ok()) else sent
  }

  function AfterYv12(c: Config, w: Progress, i: nat, a: Layer): Progress
    requires a.Yv12?
  {
    var seeded := w.(ops := w.ops || a.seeded);
    if !a.hasPacket then seeded
    else
      var flushed := if c.allowSimult || !seeded.ops then seeded else FlushedYv12(seeded, i, a.flushed);
      if a.written then SentYv12(c, flushed, i, a.covered) else flushed
  }

  function FlushedYv12(w: Progress, i: nat, flushed: Answer): Progress {
    Flush(w, flushed, Below(i)).(ops := !flushed.Ok())
  }

  function SentYv12(c: Config, w: Progress, i: nat, covered: Answer): Progress {
    var sent := Send(w, i);
    if c.allowSimult && !c.fenceSupport then sent.(ops := true, composed := w.composed + 1)
    else if covered.Ok() then Flush(sent, covered, i).(ops := false, composed := w.composed + 1)
    else Check(sent, covered)
  }

  function AfterLayers(c: Config, w: Progress, layers: seq<Layer>): Progress {
    if layers == [] then w
    else
      var i := |layers| - 1;
      var before := AfterLayers(c, w, layers[..i]);
      AfterLayer(c, before, i, layers[i])
  }

  function AfterLayer(c: Config, w: Progress, i: nat, a: Layer): Progress {
    match a
    case Untouched => w
    case Rgb(_, _, _, _, _) => AfterRgb(c, w, i, a)
    case Yv12(_, _, _, _, _) => AfterYv12(c, w, i, a)
  }

  function Fresh(start: Queue): Progress { Progress(start, false, 0, false, 0, {}) }

  /** A whole frame.  `seedOnly` is the live-video case in which a frame without composed layers
      still seeds and checkpoints its surface; `last` answers the frame's closing checkpoint. */
  function AfterFrame(c: Config, start: Queue, layers: seq<Layer>, seedOnly: bool, last: Answer): Progress {
    var w := AfterLayers(c, Fresh(start), layers);
    Sweep(if Closes(w, seedOnly) then Check(w, last) else w, |layers|)
  }

  predicate Closes(w: Progress, seedOnly: bool) {
    (w.composed == 0 && seedOnly) || (w.composed > 0 && w.ops)
  }

  /** The layers whose fences, if they have any, are signalled over a blit that may still be
      executed, from nothing but the frame and the answers given to it. */
  function Uncovered(c: Config, start: Queue, layers: seq<Layer>, seedOnly: bool, last: Answer): set<nat> {
    AfterFrame(c, start, layers, seedOnly, last).uncovered
  }

  // ------------------------------------------------------------------ without failed checkpoints

  /** What a frame without a failed checkpoint keeps: no event is outstanding, no signal was early,
      and a pending blit is remembered in the frame's flags. */
  ghost predicate Calm(w: Progress) {
    && w.queue.Settled() && (forall l :: l in w.queue.blits ==> w.queue.blits[l] <= w.queue.marked)
    && w.uncovered == {}
    && (w.queue.Pending() != {} ==> w.ops && w.composed > 0)
  }

  /** With no event outstanding, a checkpoint that returns has reached everything. */
  lemma SettledReturns(q: Queue, a: Answer)
    requires q.Settled() && a.Ok() && forall l :: l in q.blits ==> q.blits[l] <= q.marked
    ensures q.Checkpoint(a).Settled() && q.Checkpoint(a).Pending() == {}
    ensures forall l :: l in q.Checkpoint(a).blits ==> q.Checkpoint(a).blits[l] <= q.Checkpoint(a).marked
  {
  }

  lemma CalmFlush(w: Progress, a: Answer, upTo: nat)
    requires w.queue.Settled() && (forall l :: l in w.queue.blits ==> w.queue.blits[l] <= w.queue.marked)
    requires w.uncovered == {} && a.Ok()
    ensures Calm(Flush(w, a, upTo)) && Flush(w, a, upTo).queue.Pending() == {}
  {
    SettledReturns(w.queue, a);
  }

  lemma CalmRgb(c: Config, w: Progress, i: nat, a: Layer)
    requires a.Rgb? && Calm(w) && !AfterRgb(c, w, i, a).failed
    ensures Calm(AfterRgb(c, w, i, a))
  {
    var seeded := w.(ops := w.ops || a.seeded);
    if a.answer.BlitQueueFull? && a.flushed.Ok() { CalmFlush(seeded, a.flushed, Below(i)); }
    var flushed := if a.answer.BlitQueueFull? then Flush(seeded, a.flushed, Below(i)) else seeded;
    if a.answer.BlitOk? || (a.answer.BlitQueueFull? && a.retried) { CalmSentRgb(c, flushed, i, a.covered); }
  }

  lemma CalmSentRgb(c: Config, w: Progress, i: nat, covered: Answer)
    requires Calm(w) && !SentRgb(c, w, i, covered).failed
    ensures Calm(SentRgb(c, w, i, covered))
  {
    if c.fenceSupport && covered.Ok() {
      CalmFlush(Send(w, i).(ops := true, composed := w.composed + 1), covered, i);
    }
  }

  lemma CalmYv12(c: Config, w: Progress, i: nat, a: Layer)
    requires a.Yv12? && Calm(w) && !AfterYv12(c, w, i, a).failed
    ensures Calm(AfterYv12(c, w, i, a))
  {
    var seeded := w.(ops := w.ops || a.seeded);
    if a.hasPacket {
      if !c.allowSimult && seeded.ops && a.flushed.Ok() { CalmFlush(seeded, a.flushed, Below(i)); }
      var flushed := if c.allowSimult || !seeded.ops then seeded else FlushedYv12(seeded, i, a.flushed);
      if a.written { CalmSentYv12(c, flushed, i, a.covered); }
    }
  }

  lemma CalmSentYv12(c: Config, w: Progress, i: nat, covered: Answer)
    requires Calm(w) && !SentYv12(c, w, i, covered).failed
    ensures Calm(SentYv12(c, w, i, covered))
  {
    if covered.Ok() { CalmFlush(Send(w, i), covered, i); }
  }

  lemma {:induction false} CalmLayers(c: Config, w: Progress, layers: seq<Layer>)
    requires Calm(w) && !AfterLayers(c, w, layers).failed
    ensures Calm(AfterLayers(c, w, layers)) && !w.failed
  {
    if layers != [] {
      var i := |layers| - 1;
      CalmLayers(c, w, layers[..i]);
      var before := AfterLayers(c, w, layers[..i]);
      if layers[i].Rgb? { CalmRgb(c, before, i, layers[i]); }
      if layers[i].Yv12? { CalmYv12(c, before, i, layers[i]); }
    }
  }

  /** A frame that starts with no event outstanding and sees no checkpoint fail signals no fence
      early, and leaves no event outstanding for the next one: so it is with every frame until the
      first failure. */
  lemma NoFailureIsSafe(c: Config, start: Queue, layers: seq<Layer>, seedOnly: bool, last: Answer)
    requires start.Settled() && start.blits == map[] && !AfterFrame(c, start, layers, seedOnly, last).failed
    ensures Uncovered(c, start, layers, seedOnly, last) == {}
    ensures AfterFrame(c, start, layers, seedOnly, last).queue.Settled()
    ensures AfterFrame(c, start, layers, seedOnly, last).queue.Pending() == {}
  {
    CalmLayers(c, Fresh(start), layers);
    var w := AfterLayers(c, Fresh(start), layers);
    if last.Ok() { SettledReturns(w.queue, last); }
  }

  datatype FrameWork = FrameWork(layers: seq<Layer>, seedOnly: bool, last: Answer)

  function Compose(c: Config, start: Queue, f: FrameWork): Progress {
    AfterFrame(c, start, f.layers, f.seedOnly, f.last)
  }

  /** The queue the next frame starts with: only the events outstanding are carried over. */
  function Carried(c: Config, start: Queue, f: FrameWork): Queue {
    Compose(c, start, f).queue.(blits := map[])
  }

  /** No checkpoint of these frames fails. */
  predicate NoFailure(c: Config, start: Queue, frames: seq<FrameWork>)
    decreases |frames|
  {
    frames == [] || (!Compose(c, start, frames[0]).failed && NoFailure(c, Carried(c, start, frames[0]), frames[1..]))
  }

  /** No frame signals the fence of any layer early. */
  predicate AllCovered(c: Config, start: Queue, frames: seq<FrameWork>)
    decreases |frames|
  {
    frames == [] || (Compose(c, start, frames[0]).uncovered == {} && AllCovered(c, Carried(c, start, frames[0]), frames[1..]))
  }

  /** Frame after frame, until a checkpoint fails for the first time. */
  lemma {:induction false} SafeUntilFailure(c: Config, start: Queue, frames: seq<FrameWork>)
    requires start.Settled() && start.blits == map[] && NoFailure(c, start, frames)
    ensures AllCovered(c, start, frames)
    decreases |frames|
  {
    if frames != [] {
      var f := frames[0];
      NoFailureIsSafe(c, start, f.layers, f.seedOnly, f.last);
      SafeUntilFailure(c, Carried(c, start, f), frames[1..]);
    }
  }

  // ------------------------------------------------------------------ events that come late

  /** A wait that returns does so on an event at least `n` checkpoints old, if there is one. */
  predicate Lags(a: Answer, n: nat) { a.Woken? ==> a.behind >= n }

  predicate LayerLags(a: Layer, n: nat) {
    !a.Untouched? ==> Lags(a.flushed, n) && Lags(a.covered, n)
  }

  predicate FrameLags(f: FrameWork, n: nat) {
    Lags(f.last, n) && forall a :: a in f.layers ==> LayerLags(a, n)
  }

  lemma CheckpointOwes(q: Queue, a: Answer, n: nat)
    requires q.Owes(n) && Lags(a, n)
    ensures q.Checkpoint(a).Owes(n)
  {
  }

  lemma FlushOwes(w: Progress, a: Answer, upTo: nat, n: nat)
    requires w.queue.Owes(n) && Lags(a, n)
    ensures Flush(w, a, upTo).queue.Owes(n) && Check(w, a).queue.Owes(n)
  {
    CheckpointOwes(w.queue, a, n);
  }

  lemma RgbOwes(c: Config, w: Progress, i: nat, a: Layer, n: nat)
    requires a.Rgb? && w.queue.Owes(n) && LayerLags(a, n)
    ensures AfterRgb(c, w, i, a).queue.Owes(n)
  {
    var seeded := w.(ops := w.ops || a.seeded);
    FlushOwes(seeded, a.flushed, Below(i), n);
    var flushed := if a.answer.BlitQueueFull? then Flush(seeded, a.flushed, Below(i)) else seeded;
    FlushOwes(Send(flushed, i).(ops := true, composed := flushed.composed + 1), a.covered, i, n);
  }

  lemma Yv12Owes(c: Config, w: Progress, i: nat, a: Layer, n: nat)
    requires a.Yv12? && w.queue.Owes(n) && LayerLags(a, n)
    ensures AfterYv12(c, w, i, a).queue.Owes(n)
  {
    var seeded := w.(ops := w.ops || a.seeded);
    FlushOwes(seeded, a.flushed, Below(i), n);
    var flushed := if c.allowSimult || !seeded.ops then seeded else FlushedYv12(seeded, i, a.flushed);
    FlushOwes(Send(flushed, i), a.covered, i, n);
  }

  lemma {:induction false} LayersOwe(c: Config, w: Progress, layers: seq<Layer>, n: nat)
    requires w.queue.Owes(n) && forall a :: a in layers ==> LayerLags(a, n)
    ensures AfterLayers(c, w, layers).queue.Owes(n)
  {
    if layers != [] {
      var i := |layers| - 1;
      LayersOwe(c, w, layers[..i], n);
      var before := AfterLayers(c, w, layers[..i]);
      if layers[i].Rgb? { RgbOwes(c, before, i, layers[i], n); }
      if layers[i].Yv12? { Yv12Owes(c, before, i, layers[i], n); }
    }
  }

  function CarriedAll(c: Config, start: Queue, frames: seq<FrameWork>): Queue
    decreases |frames|
  {
    if frames == [] then start else CarriedAll(c, Carried(c, start, frames[0]), frames[1..])
  }

  /** An event left over is never used up: what is outstanding gets no less over any number of frames,
      whatever else happens in them, while each wait that returns does so on the oldest event. */
  lemma {:induction false} LatchedEventStays(c: Config, start: Queue, frames: seq<FrameWork>, n: nat)
    requires start.Owes(n) && forall f :: f in frames ==> FrameLags(f, n)
    ensures CarriedAll(c, start, frames).Owes(n)
    decreases |frames|
  {
    if frames != [] {
      var f := frames[0];
      assert FrameLags(f, n);
      LayersOwe(c, Fresh(start), f.layers, n);
      CheckpointOwes(AfterLayers(c, Fresh(start), f.layers).queue, f.last, n);
      LatchedEventStays(c, Carried(c, start, f), frames[1..], n);
    }
  }

  // ------------------------------------------------------------------ events that come in time

  /** A wait that returns does so on its own checkpoint's event. */
  predicate Own(a: Answer) { a.Woken? ==> a.behind == 0 }

  predicate LayerOwn(a: Layer) {
    !a.Untouched? ==> Own(a.flushed) && Own(a.covered)
  }

  /** Before layer `i`: nothing was signalled early, and what is pending is still to be swept. */
  ghost predicate Honest(w: Progress, i: nat) {
    && w.uncovered == {} && w.swept <= i
    && Counted(w.queue)
    && forall l :: l in w.queue.Pending() ==> w.swept <= l < i
  }

  ghost predicate Counted(q: Queue) {
    q.reached <= q.marked && forall l :: l in q.blits ==> q.blits[l] <= q.marked
  }

  lemma OwnReaches(q: Queue, a: Answer)
    requires Counted(q) && Own(a)
    ensures Counted(q.Checkpoint(a))
    ensures a.Ok() ==> q.Checkpoint(a).Pending() == {}
    ensures !a.Ok() ==> q.Checkpoint(a).Pending() == q.Pending()
  {
  }

  lemma HonestFlush(w: Progress, a: Answer, upTo: nat, i: nat)
    requires Honest(w, i) && Own(a) && upTo <= i
    ensures Honest(Flush(w, a, upTo), i) && Honest(Check(w, a), i)
  {
    OwnReaches(w.queue, a);
  }

  lemma HonestSend(w: Progress, i: nat)
    requires Honest(w, i)
    ensures Honest(Send(w, i), i + 1)
  {
    var q, q' := w.queue, w.queue.Submit(i);
    assert forall l :: l in q'.Pending() ==> l == i || l in q.Pending();
  }

  lemma HonestSentRgb(c: Config, w: Progress, i: nat, covered: Answer)
    requires Honest(w, i) && Own(covered)
    ensures Honest(SentRgb(c, w, i, covered), i + 1)
  {
    HonestSend(w, i);
    HonestFlush(Send(w, i).(ops := true, composed := w.composed + 1), covered, i, i + 1);
  }

  lemma HonestSentYv12(c: Config, w: Progress, i: nat, covered: Answer)
    requires Honest(w, i) && Own(covered)
    ensures Honest(SentYv12(c, w, i, covered), i + 1)
  {
    HonestSend(w, i);
    HonestFlush(Send(w, i), covered, i, i + 1);
  }

  lemma HonestLater(w: Progress, i: nat)
    requires Honest(w, i)
    ensures Honest(w, i + 1)
  {
  }

  lemma HonestRgb(c: Config, w: Progress, i: nat, a: Layer)
    requires a.Rgb? && Honest(w, i) && LayerOwn(a)
    ensures Honest(AfterRgb(c, w, i, a), i + 1)
  {
    var seeded := w.(ops := w.ops || a.seeded);
    HonestFlush(seeded, a.flushed, Below(i), i);
    var flushed := if a.answer.BlitQueueFull? then Flush(seeded, a.flushed, Below(i)) else seeded;
    HonestSentRgb(c, flushed, i, a.covered);
    HonestLater(flushed, i);
  }

  lemma HonestYv12(c: Config, w: Progress, i: nat, a: Layer)
    requires a.Yv12? && Honest(w, i) && LayerOwn(a)
    ensures Honest(AfterYv12(c, w, i, a), i + 1)
  {
    var seeded := w.(ops := w.ops || a.seeded);
    HonestFlush(seeded, a.flushed, Below(i), i);
    var flushed := if c.allowSimult || !seeded.ops then seeded else FlushedYv12(seeded, i, a.flushed);
    HonestSentYv12(c, flushed, i, a.covered);
    HonestLater(flushed, i);
  }

  lemma {:induction false} HonestLayers(c: Config, w: Progress, layers: seq<Layer>)
    requires Honest(w, 0) && forall a :: a in layers ==> LayerOwn(a)
    ensures Honest(AfterLayers(c, w, layers), |layers|)
  {
    if layers != [] {
      var i := |layers| - 1;
      HonestLayers(c, w, layers[..i]);
      var before := AfterLayers(c, w, layers[..i]);
      if layers[i].Rgb? { HonestRgb(c, before, i, layers[i]); }
      if layers[i].Yv12? { HonestYv12(c, before, i, layers[i]); }
    }
  }

  /** When every wait that returns does so on its own event, the uncovered layers are exactly those
      whose blit no later checkpoint of the frame has covered: no fence but theirs is early, however
      many checkpoints failed in between. */
  lemma OwnEventsUncovered(c: Config, start: Queue, f: FrameWork)
    requires Counted(start) && start.blits == map[] && Own(f.last) && forall a :: a in f.layers ==> LayerOwn(a)
    ensures Compose(c, start, f).uncovered == Compose(c, start, f).queue.Pending()
  {
    HonestLayers(c, Fresh(start), f.layers);
    OwnReaches(AfterLayers(c, Fresh(start), f.layers).queue, f.last);
  }

  // ------------------------------------------------------------------ what must be blitted

  /** The layer's blit enters the queue: at once, on the retry after a full queue was flushed, or as a
      packet that was written. */
  predicate Blitted(a: Layer) {
    match a
    case Untouched => false
    case Rgb(_, answer, _, retried, _) => answer.BlitOk? || (answer.BlitQueueFull? && retried)
    case Yv12(_, hasPacket, _, written, _) => hasPacket && written
  }

  /** A blit that is followed by a checkpoint of its own. */
  predicate OwnChecked(c: Config, a: Layer) {
    Blitted(a) && (c.fenceSupport || (a.Yv12? && !c.allowSimult))
  }

  /** The layer counts as composed: a YV12 layer whose own checkpoint fails does not. */
  predicate Counts(c: Config, a: Layer) {
    Blitted(a) && !(a.Yv12? && OwnChecked(c, a) && !a.covered.Ok())
  }

  /** A checkpoint comes first if an RGB blit found the queue full, or if a YV12 packet must not be
      mixed with work already queued. */
  predicate Flushed(c: Config, ops: bool, a: Layer) {
    (a.Rgb? && a.answer.BlitQueueFull?) || (a.Yv12? && a.hasPacket && !c.allowSimult && (ops || a.seeded))
  }

  /** What composing layer `i` does to the blitter; `ops` says that work may be queued. */
  function LayerTrace(c: Config, ops: bool, i: nat, a: Layer): seq<Event> {
    (if Flushed(c, ops, a) then [Checked(a.flushed)] else [])
    + (if Blitted(a) then [Submitted(i)] else [])
    + (if OwnChecked(c, a) then [Checked(a.covered)] else [])
  }

  function Composed(c: Config, layers: seq<Layer>): nat {
    if layers == [] then 0
    else Composed(c, layers[..|layers| - 1]) + if Counts(c, layers[|layers| - 1]) then 1 else 0
  }

  /** The log without the fences. */
  function Work(log: seq<Event>): seq<Event> {
    if log == [] then []
    else Work(log[..|log| - 1]) + if log[|log| - 1].Released? then [] else [log[|log| - 1]]
  }

  lemma WorkAppended(log: seq<Event>, e: Event)
    ensures Work(log + [e]) == Work(log) + if e.Released? then [] else [e]
  {
    assert (log + [e])[..|log|] == log;
  }

  /** Blits of layer `l` in a piece of work. */
  function Blits(work: seq<Event>, l: nat): nat {
    if work == [] then 0 else Blits(work[..|work| - 1], l) + if work[|work| - 1] == Submitted(l) then 1 else 0
  }

  lemma {:induction false} BlitsAppend(a: seq<Event>, b: seq<Event>, l: nat)
    ensures Blits(a + b, l) == Blits(a, l) + Blits(b, l)
  {
    if b == [] {
      assert a + b == a;
    } else {
      var init, last := b[..|b| - 1], b[|b| - 1];
      assert (a + b)[..|a + b| - 1] == a + init && (a + b)[|a + b| - 1] == last;
      BlitsAppend(a, init, l);
    }
  }

  lemma TraceBlits(c: Config, ops: bool, i: nat, a: Layer, l: nat)
    ensures Blits(LayerTrace(c, ops, i, a), l) == if l == i && Blitted(a) then 1 else 0
  {
    var f := if Flushed(c, ops, a) then [Checked(a.flushed)] else [];
    var s := if Blitted(a) then [Submitted(i)] else [];
    var o := if OwnChecked(c, a) then [Checked(a.covered)] else [];
    BlitsAppend(f + s, o, l);
    BlitsAppend(f, s, l);
    NoBlits(f, l);
    NoBlits(o, l);
    BlitsOne(Submitted(i), l);
  }

  lemma NoBlits(work: seq<Event>, l: nat)
    requires |work| <= 1 && (work != [] ==> work[0].Checked?)
    ensures Blits(work, l) == 0
  {
  }

  lemma BlitsOne(e: Event, l: nat)
    ensures Blits([e], l) == if e == Submitted(l) then 1 else 0
  {
    assert [e][..0] == [];
  }

  /** Every blit is followed at once by its layer's own checkpoint. */
  ghost predicate Followed(work: seq<Event>, layers: seq<Layer>) {
    forall p :: 0 <= p < |work| && work[p].Submitted? ==>
      && work[p].layer < |layers| && !layers[work[p].layer].Untouched?
      && p + 1 < |work| && work[p + 1] == Checked(layers[work[p].layer].covered)
  }

  lemma FollowedAppend(a: seq<Event>, b: seq<Event>, layers: seq<Layer>)
    requires Followed(a, layers) && Followed(b, layers)
    ensures Followed(a + b, layers)
  {
    forall p | 0 <= p < |a + b| && (a + b)[p].Submitted?
      ensures && (a + b)[p].layer < |layers| && !layers[(a + b)[p].layer].Untouched?
              && p + 1 < |a + b| && (a + b)[p + 1] == Checked(layers[(a + b)[p].layer].covered)
    {
      if p < |a| {
        assert a[p].Submitted?;
      } else {
        assert b[p - |a|].Submitted?;
      }
    }
  }

  lemma TraceFollowed(c: Config, ops: bool, i: nat, layers: seq<Layer>)
    requires c.fenceSupport && i < |layers|
    ensures Followed(LayerTrace(c, ops, i, layers[i]), layers)
  {
  }

  /** The pieces of a layer's work add up to its trace. */
  lemma RgbTrace(c: Config, ops: bool, i: nat, a: Layer, before: seq<Event>, middle: seq<Event>, after: seq<Event>)
    requires a.Rgb?
    requires middle == if a.answer.BlitQueueFull? then before + [Checked(a.flushed)] else before
    requires after == if !Blitted(a) then middle
                      else if c.fenceSupport then middle + [Submitted(i)] + [Checked(a.covered)] else middle + [Submitted(i)]
    ensures after == before + LayerTrace(c, ops, i, a)
  {
  }

  lemma Yv12Trace(c: Config, ops: bool, i: nat, a: Layer, before: seq<Event>, middle: seq<Event>, after: seq<Event>)
    requires a.Yv12? && a.hasPacket
    requires middle == if !c.allowSimult && (ops || a.seeded) then before + [Checked(a.flushed)] else before
    requires after == if !Blitted(a) then middle
                      else if c.fenceSupport || !c.allowSimult then middle + [Submitted(i)] + [Checked(a.covered)]
                      else middle + [Submitted(i)]
    ensures after == before + LayerTrace(c, ops, i, a)
  {
  }

  /** The first `n` layers have been blitted as they must be. */
  ghost predicate DoneUpTo(c: Config, work: seq<Event>, layers: seq<Layer>, n: nat) {
    && (forall l :: 0 <= l < |layers| ==> Blits(work, l) == if l < n && Blitted(layers[l]) then 1 else 0)
    && (c.fenceSupport ==> Followed(work, layers))
  }

  /** One more layer's work. */
  lemma TraceAdds(c: Config, ops: bool, i: nat, layers: seq<Layer>, work: seq<Event>)
    requires i < |layers| && DoneUpTo(c, work, layers, i)
    ensures DoneUpTo(c, work + LayerTrace(c, ops, i, layers[i]), layers, i + 1)
    ensures layers[i].Untouched? ==> work + LayerTrace(c, ops, i, layers[i]) == work
  {
    var trace := LayerTrace(c, ops, i, layers[i]);
    forall l | 0 <= l < |layers|
      ensures Blits(work + trace, l) == if l < i + 1 && Blitted(layers[l]) then 1 else 0
    {
      BlitsAppend(work, trace, l);
      TraceBlits(c, ops, i, layers[i], l);
    }
    if c.fenceSupport {
      TraceFollowed(c, ops, i, layers);
      FollowedAppend(work, trace, layers);
    }
  }

  lemma ClosingAdds(c: Config, work: seq<Event>, last: Answer, layers: seq<Layer>, n: nat)
    requires DoneUpTo(c, work, layers, n)
    ensures DoneUpTo(c, work + [Checked(last)], layers, n)
  {
    assert (work + [Checked(last)])[..|work|] == work;
    if c.fenceSupport { FollowedAppend(work, [Checked(last)], layers); }
  }

  /** How far the fences have been let go early after a layer: below it if its own checkpoint returned,
      below the layer before it if only the flush in front of it did. */
  lemma SweptAfter(c: Config, w: Progress, i: nat, a: Layer)
    ensures a.Rgb? ==> AfterRgb(c, w, i, a).swept == SweptTo(c, w, i, a)
    ensures a.Yv12? ==> AfterYv12(c, w, i, a).swept == SweptTo(c, w, i, a)
  {
  }

  function SweptTo(c: Config, w: Progress, i: nat, a: Layer): nat {
    var first := if !a.Untouched? && Flushed(c, w.ops, a) && a.flushed.Ok() && Below(i) > w.swept then Below(i) else w.swept;
    if OwnChecked(c, a) && a.covered.Ok() && i > first then i else first
  }

  // ------------------------------------------------------------------ composing one frame

  class Composition {
    const config: Config
    const start: Queue
    const held: array<bool>       // releaseFenceFd is valid
    ghost var log: seq<Event>
    /** the log without the fences */
    ghost var work: seq<Event>
    var queuedOps: bool
    var composed: nat

    constructor (config: Config, start: Queue, held: array<bool>)
      ensures this.config == config && this.start == start && this.held == held
      ensures log == work == [] && !queuedOps && composed == 0
    {
      this.config, this.start, this.held := config, start, held;
      log, work, queuedOps, composed := [], [], false, 0;
    }

    /** Each fence of a layer below `swept` was signalled once, the others are held, and the signals
        were safe unless one was uncovered. */
    ghost predicate Signalled(queue: Queue, swept: nat, uncovered: set<nat>, fences: seq<bool>)
      reads this, held
    {
      && held.Length == |fences| && swept <= |fences|
      && queue == Read(start, log)
      && (forall l :: 0 <= l < |fences| ==> held[l] == (fences[l] && l >= swept))
      && (forall l: nat :: Signals(log, l) == if l < swept && fences[l] then 1 else 0)
      && (Safe(start, log) <==> forall l :: 0 <= l < swept && fences[l] ==> l !in uncovered)
      && (forall l :: l in uncovered ==> l < swept)
    }

    ghost predicate Logged()
      reads this
    {
      work == Work(log)
    }

    /** The frame has come as far as `w` says. */
    ghost predicate At(w: Progress, fences: seq<bool>)
      reads this, held
    {
      Signalled(w.queue, w.swept, w.uncovered, fences) && Logged() && w.ops == queuedOps && w.composed == composed
    }

    /** A blit with no checkpoint behind it is known to be queued, and counted. */
    ghost predicate Trailing()
      reads this
    {
      work != [] && work[|work| - 1].Submitted? ==> queuedOps && composed > 0
    }

    ghost method Note(e: Event)
      modifies this`log, this`work
      ensures log == old(log) + [e]
      ensures Read(start, log) == Next(old(Read(start, log)), e)
      ensures Safe(start, log) == (old(Safe(start, log)) && (e.Released? ==> e.layer !in old(Read(start, log)).Pending()))
      ensures forall l: nat :: Signals(log, l) == old(Signals(log, l)) + if e == Released(l) then 1 else 0
      ensures work == if e.Released? then old(work) else old(work) + [e]
      ensures old(Logged()) ==> Logged()
    {
      Appended(start, log, e);
      WorkAppended(log, e);
      if !e.Released? { work := work + [e]; }
      log := log + [e];
    }

    /** hwc_checkpoint */
    method Checkpoint(a: Answer, ghost w: Progress, ghost fences: seq<bool>) returns (ok: bool)
      requires At(w, fences)
      modifies this`log, this`work
      ensures At(Check(w, a), fences) && ok == a.Ok()
      ensures work == old(work) + [Checked(a)]
    {
      ok := a.Ok();
      Note(Checked(a));
    }

    /** hwc_clear_acquire_release_fences, and the closing loop of hwc_compose_primary. */
    method ClearFences(upTo: nat, ghost w: Progress, ghost fences: seq<bool>)
      requires At(w, fences) && upTo <= |fences|
      modifies this`log, this`work, held
      ensures At(Sweep(w, upTo), fences) && work == old(work)
    {
      var i := 0;
      while i < upTo
        invariant 0 <= i <= upTo && At(Sweep(w, i), fences) && work == old(work)
      {
        SweepOne(w, i);
        ClearOne(i, Sweep(w, i), fences);
        i := i + 1;
      }
    }

    /** Signals the fence of layer `i`, if it is still held. */
    method ClearOne(i: nat, ghost w: Progress, ghost fences: seq<bool>)
      requires At(w, fences) && i < |fences| && i <= w.swept
      modifies this`log, this`work, held
      ensures At(Sweep(w, i + 1), fences) && work == old(work)
    {
      SweepAt(w, i);
      if held[i] {
        Note(Released(i));
        held[i] := false;
      }
    }

    method FlushAndClear(a: Answer, upTo: nat, ghost w: Progress, ghost fences: seq<bool>) returns (ok: bool)
      requires At(w, fences) && upTo <= |fences|
      modifies this`log, this`work, held
      ensures At(Flush(w, a, upTo), fences) && ok == a.Ok()
      ensures work == old(work) + [Checked(a)]
    {
      ok := Checkpoint(a, w, fences);
      if ok { ClearFences(upTo, Check(w, a), fences); }
    }

    /** A blit reading layer `i` enters the queue. */
    ghost method Submit(i: nat, w: Progress, fences: seq<bool>)
      requires At(w, fences)
      modifies this`log, this`work
      ensures At(Send(w, i), fences) && work == old(work) + [Submitted(i)]
    {
      Note(Submitted(i));
    }

    /** The RGB path: a full queue is flushed once and the blit retried. */
    method ComposeRgb(i: nat, a: Layer, ghost w: Progress, ghost fences: seq<bool>)
      requires At(w, fences) && Trailing() && i < |fences| && a.Rgb?
      modifies this, held
      ensures Trailing()
      ensures At(AfterRgb(config, w, i, a), fences)
      ensures work == old(work) + LayerTrace(config, w.ops, i, a)
      ensures composed == old(composed) + if Counts(config, a) then 1 else 0
    {
      queuedOps := queuedOps || a.seeded;
      ghost var p := w.(ops := w.ops || a.seeded);
      var ok := EnterRgb(i, a, p, fences);
      p := if a.answer.BlitQueueFull? then Flush(p, a.flushed, Below(i)) else p;
      ghost var middle := work;
      if ok { SendRgb(i, a.covered, p, fences); }
      RgbTrace(config, w.ops, i, a, old(work), middle, work);
    }

    /** The blit, and its retry behind a flush. */
    method EnterRgb(i: nat, a: Layer, ghost w: Progress, ghost fences: seq<bool>) returns (ok: bool)
      requires At(w, fences) && i < |fences| && a.Rgb?
      modifies this`log, this`work, held
      ensures At(if a.answer.BlitQueueFull? then Flush(w, a.flushed, Below(i)) else w, fences)
      ensures work == if a.answer.BlitQueueFull? then old(work) + [Checked(a.flushed)] else old(work)
      ensures ok == Blitted(a)
    {
      ok := a.answer.BlitOk?;
      if a.answer.BlitQueueFull? {
        var flushed := FlushAndClear(a.flushed, if i > 0 then i - 1 else 0, w, fences);
        ok := a.retried;
      }
    }

    /** With fences every blit is followed by its own checkpoint. */
    method SendRgb(i: nat, covered: Answer, ghost w: Progress, ghost fences: seq<bool>)
      requires At(w, fences) && i < |fences|
      modifies this, held
      ensures !config.fenceSupport ==> queuedOps
      ensures At(SentRgb(config, w, i, covered), fences)
      ensures work == if config.fenceSupport then old(work) + [Submitted(i)] + [Checked(covered)] else old(work) + [Submitted(i)]
      ensures composed == old(composed) + 1
    {
      Submit(i, w, fences);
      queuedOps, composed := true, composed + 1;
      ghost var sent := Send(w, i).(ops := true, composed := w.composed + 1);
      if config.fenceSupport {
        var ok := FlushAndClear(covered, i, sent, fences);
        if ok { queuedOps := false; }
      }
    }

    /** The YV12 path: queued blits are flushed first unless the blitter takes mixed work. */
    method ComposeYv12(i: nat, a: Layer, ghost w: Progress, ghost fences: seq<bool>)
      requires At(w, fences) && Trailing() && i < |fences| && a.Yv12?
      modifies this, held
      ensures Trailing()
      ensures At(AfterYv12(config, w, i, a), fences)
      ensures work == old(work) + LayerTrace(config, w.ops, i, a)
      ensures composed == old(composed) + if Counts(config, a) then 1 else 0
    {
      queuedOps := queuedOps || a.seeded;
      ghost var p := w.(ops := w.ops || a.seeded);
      if !a.hasPacket { return; }
      FlushYv12(i, a.flushed, p, fences);
      p := if config.allowSimult || !p.ops then p else FlushedYv12(p, i, a.flushed);
      ghost var middle := work;
      if a.written { SendYv12(i, a.covered, p, fences); }
      Yv12Trace(config, w.ops, i, a, old(work), middle, work);
    }

    method FlushYv12(i: nat, flushed: Answer, ghost w: Progress, ghost fences: seq<bool>)
      requires At(w, fences) && Trailing() && i < |fences|
      modifies this, held
      ensures Trailing()
      ensures At(if config.allowSimult || !w.ops then w else FlushedYv12(w, i, flushed), fences)
      ensures work == if !config.allowSimult && w.ops then old(work) + [Checked(flushed)] else old(work)
      ensures composed == old(composed)
    {
      if !config.allowSimult && queuedOps {
        var ok := FlushAndClear(flushed, if i > 0 then i - 1 else 0, w, fences);
        if ok { queuedOps := false; }
      }
    }

    /** A layer whose own checkpoint fails does not count as composed. */
    method SendYv12(i: nat, covered: Answer, ghost w: Progress, ghost fences: seq<bool>)
      requires At(w, fences) && i < |fences|
      modifies this, held
      ensures !config.fenceSupport && config.allowSimult ==> queuedOps
      ensures At(SentYv12(config, w, i, covered), fences)
      ensures work == if config.fenceSupport || !config.allowSimult then old(work) + [Submitted(i)] + [Checked(covered)]
                      else old(work) + [Submitted(i)]
      ensures composed == old(composed) + if (config.fenceSupport || !config.allowSimult) && !covered.Ok() then 0 else 1
    {
      Submit(i, w, fences);
      if !config.allowSimult || config.fenceSupport {
        var ok := Checkpoint(covered, Send(w, i), fences);
        if ok {
          queuedOps, composed := false, composed + 1;
          ClearFences(i, Check(Send(w, i), covered).(ops := false, composed := w.composed + 1), fences);
        }
      } else {
        queuedOps, composed := true, composed + 1;
      }
    }

    /** The loop over the layers. */
    method ComposeLayers(layers: seq<Layer>, ghost fences: seq<bool>)
      requires held.Length == |layers| == |fences| && At(Fresh(start), fences) && work == []
      modifies this, held
      ensures At(AfterLayers(config, Fresh(start), layers), fences)
      ensures DoneUpTo(config, work, layers, |layers|) && composed == Composed(config, layers) && Trailing()
    {
      var i := 0;
      while i < |layers|
        invariant 0 <= i <= |layers| && At(AfterLayers(config, Fresh(start), layers[..i]), fences)
        invariant DoneUpTo(config, work, layers, i) && composed == Composed(config, layers[..i]) && Trailing()
      {
        ghost var w, before := AfterLayers(config, Fresh(start), layers[..i]), work;
        assert layers[..i + 1][..i] == layers[..i];
        ComposeLayer(i, layers[i], w, fences);
        TraceAdds(config, w.ops, i, layers, before);
        i := i + 1;
      }
      assert layers[..|layers|] == layers;
    }

    method ComposeLayer(i: nat, a: Layer, ghost w: Progress, ghost fences: seq<bool>)
      requires At(w, fences) && Trailing() && i < |fences|
      modifies this, held
      ensures Trailing()
      ensures At(AfterLayer(config, w, i, a), fences)
      ensures work == old(work) + LayerTrace(config, w.ops, i, a)
      ensures composed == old(composed) + if Counts(config, a) then 1 else 0
    {
      match a {
        case Untouched => assert LayerTrace(config, w.ops, i, a) == [];
        case Rgb(_, _, _, _, _) => ComposeRgb(i, a, w, fences);
        case Yv12(_, _, _, _, _) => ComposeYv12(i, a, w, fences);
      }
    }

    /** hwc_compose_primary as far as blits and fences go.  Every layer whose blit the hardware takes
        is blitted once and no other is; with fences each blit is followed by its own checkpoint, and in
        any case a checkpoint follows the last blit.
        Every fence is signalled exactly once, and the signals are safe if and only if no layer with a
        fence is among the uncovered ones. */
    method ComposeFrame(layers: seq<Layer>, seedOnly: bool, last: Answer, ghost fences: seq<bool>)
      requires held.Length == |layers| == |fences| && held[..] == fences
      requires log == work == [] && !queuedOps && composed == 0
      modifies this, held
      ensures forall l :: 0 <= l < |fences| ==> !held[l] && Signals(log, l) == if fences[l] then 1 else 0
      ensures Safe(start, log) <==>
                forall l :: 0 <= l < |fences| && fences[l] ==> l !in Uncovered(config, start, layers, seedOnly, last)
      ensures Read(start, log) == AfterFrame(config, start, layers, seedOnly, last).queue
      ensures work == Work(log) && composed == Composed(config, layers)
      ensures forall l :: 0 <= l < |layers| ==> Blits(work, l) == if Blitted(layers[l]) then 1 else 0
      ensures config.fenceSupport ==> Followed(work, layers)
      ensures work != [] ==> !work[|work| - 1].Submitted?
      ensures composed == 0 && seedOnly ==> work != [] && work[|work| - 1] == Checked(last)
    {
      ComposeLayers(layers, fences);
      ghost var w := AfterLayers(config, Fresh(start), layers);
      Close(layers, seedOnly, last, w, fences);
      w := if Closes(w, seedOnly) then Check(w, last) else w;
      ClearFences(|layers|, w, fences);
    }

    /** The checkpoint that ends a frame which is only seeded, or whose last blits have none yet. */
    method Close(ghost layers: seq<Layer>, seedOnly: bool, last: Answer, ghost w: Progress, ghost fences: seq<bool>)
      requires At(w, fences) && Trailing() && DoneUpTo(config, work, layers, |layers|)
      modifies this`log, this`work
      ensures At(if Closes(w, seedOnly) then Check(w, last) else w, fences)
      ensures DoneUpTo(config, work, layers, |layers|)
      ensures work != [] ==> !work[|work| - 1].Submitted?
      ensures composed == 0 && seedOnly ==> work != [] && work[|work| - 1] == Checked(last)
    {
      if (composed == 0 && seedOnly) || (composed > 0 && queuedOps) {
        ClosingAdds(config, work, last, layers, |layers|);
        var ok := Checkpoint(last, w, fences);
      }
    }
  }

  /** Sweeping goes layer by layer. */
  lemma SweepOne(w: Progress, i: nat)
    ensures Sweep(w, i + 1) == Sweep(Sweep(w, i), i + 1) && i <= Sweep(w, i).swept
  {
  }

  lemma SweepAt(w: Progress, i: nat)
    requires i <= w.swept
    ensures i < w.swept ==> Sweep(w, i + 1) == w
    ensures i == w.swept ==> Sweep(w, i + 1).queue == w.queue && Sweep(w, i + 1).swept == i + 1
                             && Sweep(w, i + 1).ops == w.ops && Sweep(w, i + 1).composed == w.composed
    ensures i == w.swept ==> forall l :: l in Sweep(w, i + 1).uncovered <==> l in w.uncovered || (l == i && i in w.queue.Pending())
  {
  }

  // ------------------------------------------------------------------ where it fails

  const Alone := Queue(0, 0, map[])

  /** The only blit of the frame is a YV12 layer whose checkpoint times out: the frame is dropped and
      the layer's fence signalled over the live blit. */
  method TimeoutReleasesEarly() returns (c: Composition)
    ensures !Safe(c.start, c.log) && c.start.Settled()
  {
    var held := new bool[1](_ => true);
    c := new Composition(Config(true, false), Alone, held);
    var layers := [Yv12(false, true, Ready, true, TimedOut)];
    assert layers[..0] == [];
    assert Uncovered(c.config, Alone, layers, false, Ready) == {0};
    c.ComposeFrame(layers, false, Ready, [true]);
  }

  /** The event left over by an earlier frame's timeout is enough: every checkpoint of this frame
      returns, one checkpoint too early, and the last layer's fence is signalled over its blit. */
  method LatchedEventReleasesEarly() returns (c: Composition)
    ensures !Safe(c.start, c.log)
    ensures c.start == Alone.Checkpoint(TimedOut)
  {
    var held := new bool[1](_ => true);
    c := new Composition(Config(true, false), Alone.Checkpoint(TimedOut), held);
    var layers := [Rgb(false, BlitOk, Ready, false, Woken(1))];
    assert layers[..0] == [];
    assert Uncovered(c.config, c.start, layers, false, Ready) == {0};
    c.ComposeFrame(layers, false, Ready, [true]);
  }
}
