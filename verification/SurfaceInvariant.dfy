/** Display-surface conservation: in every interleaving each display buffer is in exactly one place. */
module SurfaceInvariant {
  import opened Common
  import opened DisplayRing
  import opened Pipeline

  /** Each surface occurs at most once among ring, composer, display client, threads' hands
      and the lost ones; each current owner exactly once; what the ring and the composer
      hold are owners; a slot being dereferenced still holds the surface that was read. */
  ghost predicate Conserved(s: State)
    requires Shape(s)
  {
    && (forall x :: Live(s)[x] <= 1)
    && (forall x :: x in s.disp.owners ==> Live(s)[x] == 1)
    && Distinct(s.disp.owners)
    && multiset(s.disp.ring.Contents()) + HeldBag(s.phase) + s.disp.lost <= multiset(s.disp.owners)
    && 0 !in Live(s)
    && (s.phase.Reading? ==> s.phase.slot == s.disp.ring.LastRead() && s.disp.ring.slots[s.phase.slot] == s.phase.read)
  }

  /** How many leading display buffers are no longer the ring's: a toggle under way has replaced
      some, or failed ones have. */
  function Changed(s: State): nat {
    if s.phase.Swapping? && s.phase.done > s.disp.replaced then s.phase.done else s.disp.replaced
  }

  /** The display buffers against the ring's owners: the changed ones are in no place the protocol
      knows about, the others are the same. */
  ghost predicate BuffersTrack(s: State)
    requires Shape(s)
  {
    && (forall i :: Changed(s) <= i < NUM_DISP_BUFFERS ==> s.disp.buffers[i] == s.disp.owners[i])
    && (forall i :: 0 <= i < Changed(s) ==> s.disp.buffers[i] !in Live(s))
    && (s.phase.Swapping? ==>
          && Distinct(s.disp.buffers[..s.phase.done])
          && forall i :: 0 <= i < s.phase.done ==> s.disp.buffers[i] != 0)
  }

  lemma CardMonotone(a: multiset<Surface>, b: multiset<Surface>)
    requires a <= b
    ensures |a| <= |b|
  {
    assert b == a + (b - a);
  }

  /** Three owners leave no room for a fourth surface in the ring and the composer's hands. */
  lemma RingFits(s: State)
    requires Shape(s) && Conserved(s)
    ensures s.disp.ring.count + |HeldBag(s.phase)| + |s.disp.lost| <= NUM_DISP_BUFFERS
  {
    var inside := multiset(s.disp.ring.Contents()) + HeldBag(s.phase) + s.disp.lost;
    CardMonotone(inside, multiset(s.disp.owners));
  }

  ghost predicate Inv(s: State) {
    Shape(s) && Conserved(s) && BuffersTrack(s)
  }

  lemma InitialInv(buffers: seq<Surface>)
    requires |buffers| == NUM_DISP_BUFFERS && Distinct(buffers) && 0 !in buffers
    ensures Inv(Initial(buffers))
  {
    var s := Initial(buffers);
    assert s.disp.ring.Contents() == buffers;
    forall x ensures Live(s)[x] == if x in buffers then 1 else 0 { DistinctOnce(buffers, x); }
  }

  /** A step that only moves surfaces between places keeps the invariant. */
  lemma Moved(s: State, s': State)
    requires Inv(s) && Shape(s') && !s.phase.Swapping? && !s'.phase.Swapping?
    requires Live(s') == Live(s) && s'.disp.owners == s.disp.owners && s'.disp.buffers == s.disp.buffers && s'.disp.replaced == s.disp.replaced
    requires multiset(s'.disp.ring.Contents()) + HeldBag(s'.phase) + s'.disp.lost <= multiset(s.disp.owners)
    requires s'.phase.Reading? ==> s'.phase.slot == s'.disp.ring.LastRead() && s'.disp.ring.slots[s'.phase.slot] == s'.phase.read
    ensures Inv(s')
  {
  }

  /** Steps that move no surface: only the phase or the fences change. */
  predicate Idle(step: Step) {
    || step.SetFrame? || step.SetSkipped? || step.Pop? || step.BeginFetch? || step.Peek? || step.NoSurface?
    || step.Signal? || step.Retire? || step.ReleaseLayer? || step.Finish?
  }

  lemma IdleInv(s: State, step: Step)
    requires Inv(s) && Enabled(s, step) && Idle(step)
    ensures Inv(Apply(s, step))
  {
    ShapeKept(s, step);
    if step.Signal? { SignalKeeps(s, step); } else { IdleKeeps(s, step); }
    SameInv(s, Apply(s, step));
  }

  lemma IdleKeeps(s: State, step: Step)
    requires Shape(s) && Enabled(s, step) && Idle(step) && !step.Signal?
    ensures SameSurfaces(s, Apply(s, step))
  {
    var s' := Apply(s, step);
    assert s'.disp == s.disp;
    assert HeldBag(s'.phase) == HeldBag(s.phase);
  }

  lemma SignalKeeps(s: State, step: Step)
    requires Shape(s) && Enabled(s, step) && step.Signal?
    ensures SameSurfaces(s, Apply(s, step))
  {
  }

  ghost predicate SameSurfaces(s: State, s': State) {
    && s'.disp.ring == s.disp.ring && s'.disp.lost == s.disp.lost && Away(s') == Away(s)
    && HeldBag(s'.phase) == HeldBag(s.phase)
    && s'.disp.buffers == s.disp.buffers && s'.disp.owners == s.disp.owners && s'.disp.replaced == s.disp.replaced
    && s'.phase.Swapping? == s.phase.Swapping? && s'.phase.Reading? == s.phase.Reading?
    && (s.phase.Swapping? ==> s'.phase.done == s.phase.done)
    && (s.phase.Reading? ==> s'.phase.slot == s.phase.slot && s'.phase.read == s.phase.read)
  }

  lemma SameInv(s: State, s': State)
    requires Inv(s) && Shape(s') && SameSurfaces(s, s')
    ensures Inv(s')
  {
    assert Live(s') == Live(s);
  }

  lemma SwapInv(s: State, step: Step)
    requires Inv(s) && Enabled(s, step) && (step.SwapBuffer? || step.SwapFailed?)
    ensures Inv(Apply(s, step))
  {
    var s' := Apply(s, step);
    assert HeldBag(s'.phase) == HeldBag(s.phase) == multiset{};
    assert Live(s') == Live(s);
    assert Conserved(s');
    var j := if s.phase.Popped? then 0 else s.phase.done;
    if step.SwapBuffer? { SwapNext(s, s', j, step.new_); } else { SwapStops(s, s', j, step.nulled); }
  }

  /** A toggle under way replaces one more buffer. */
  lemma SwapNext(s: State, s': State, j: nat, n: Surface)
    requires Shape(s) && BuffersTrack(s) && Shape(s') && j < NUM_DISP_BUFFERS && Live(s') == Live(s)
    requires n !in Live(s) && n != 0 && n !in s.disp.buffers
    requires if s.phase.Swapping? then j == s.phase.done else j == 0
    requires s'.phase.Swapping? && s'.phase.done == j + 1
    requires s'.disp.owners == s.disp.owners && s'.disp.buffers == s.disp.buffers[j := n] && s'.disp.replaced == s.disp.replaced
    ensures BuffersTrack(s')
  {
    assert Changed(s') == if j + 1 > Changed(s) then j + 1 else Changed(s);
    OneMore(s, j, n);
    assert s'.disp.buffers[..j + 1] == s.disp.buffers[..j] + [n];
    forall i | 0 <= i < j + 1 ensures s'.disp.buffers[i] != 0 {
      if i < j { assert s.disp.buffers[i] != 0; }
    }
  }

  /** The buffers replaced so far stay distinct with one more. */
  lemma OneMore(s: State, j: nat, n: Surface)
    requires Shape(s) && BuffersTrack(s) && j < NUM_DISP_BUFFERS && n !in s.disp.buffers
    requires if s.phase.Swapping? then j == s.phase.done else j == 0
    ensures Distinct(s.disp.buffers[..j] + [n])
  {
    if j > 0 { assert Distinct(s.disp.buffers[..j]); }
    DistinctSnoc(s.disp.buffers[..j], n);
  }

  /** A toggle fails, at its start or with buffer `j` emptied. */
  lemma SwapStops(s: State, s': State, j: nat, nulled: bool)
    requires Shape(s) && BuffersTrack(s) && Shape(s') && j < NUM_DISP_BUFFERS && Live(s') == Live(s) && !s'.phase.Swapping?
    requires if s.phase.Swapping? then j == s.phase.done && nulled else j == 0
    requires s'.disp.owners == s.disp.owners
    requires 0 !in Live(s) && s'.disp.buffers == if nulled then s.disp.buffers[j := 0] else s.disp.buffers
    requires s'.disp.replaced == if nulled && s.disp.replaced <= j then j + 1 else s.disp.replaced
    ensures BuffersTrack(s')
  {
    assert Changed(s') == if nulled && j + 1 > Changed(s) then j + 1 else Changed(s);
  }

  lemma ReinitInv(s: State)
    requires Inv(s) && Enabled(s, Reinit)
    ensures Inv(Apply(s, Reinit))
  {
    var s' := Apply(s, Reinit);
    assert s'.disp.ring.Contents() == s.disp.buffers;
    assert s.disp.buffers[..NUM_DISP_BUFFERS] == s.disp.buffers;
    assert forall x :: x in s.disp.buffers ==> x !in Live(s);
    FreshRing(s, s');
  }

  lemma FreshRing(s: State, s': State)
    requires Inv(s) && Shape(s') && Distinct(s'.disp.buffers) && s'.disp.owners == s'.disp.buffers == s'.disp.ring.Contents()
    requires forall x :: x in s'.disp.buffers ==> x !in Live(s) && x != 0
    requires Away(s') == Away(s) && s'.disp.lost == multiset{} && HeldBag(s'.phase) == multiset{} && s'.disp.replaced == 0
    requires !s'.phase.Swapping? && !s'.phase.Reading?
    ensures Inv(s')
  {
    forall x { FreshLive(s, s', x); }
  }

  lemma FreshLive(s: State, s': State, x: Surface)
    requires Inv(s) && Shape(s') && Distinct(s'.disp.buffers) && s'.disp.buffers == s'.disp.ring.Contents()
    requires forall y :: y in s'.disp.buffers ==> y !in Live(s) && y != 0
    requires Away(s') == Away(s) && s'.disp.lost == multiset{} && HeldBag(s'.phase) == multiset{}
    ensures Live(s')[x] == Away(s)[x] + if x in s'.disp.buffers then 1 else 0
    ensures Live(s')[x] <= 1 && (x in s'.disp.buffers ==> Live(s')[x] == 1) && (x in Live(s') ==> x != 0)
  {
    DistinctOnce(s'.disp.buffers, x);
    assert Live(s')[x] == multiset(s'.disp.buffers)[x] + Away(s)[x];
    assert Away(s)[x] <= Live(s)[x] <= 1;
  }

  lemma ReadInv(s: State)
    requires Inv(s) && Enabled(s, ReadSlot)
    ensures Inv(Apply(s, ReadSlot))
  {
    var s' := Apply(s, ReadSlot);
    ReadDropsOldest(s.disp.ring);
    assert Live(s') == Live(s);
  }

  /** The surface dereferenced after the unlock is the one that was read. */
  lemma DereferenceInv(s: State)
    requires Inv(s) && Enabled(s, Dereference)
    ensures Inv(Apply(s, Dereference))
    ensures Apply(s, Dereference).phase.out == s.phase.read
  {
    var s' := Apply(s, Dereference);
    assert Live(s') == Live(s);
  }

  lemma TakeInv(s: State, who: Actor, got: seq<Surface>)
    requires Inv(s) && Enabled(s, Take(who, got))
    ensures Inv(Apply(s, Take(who, got)))
  {
    ShapeKept(s, Take(who, got));
    TakeKeeps(s, who, got);
    SameInv(s, Apply(s, Take(who, got)));
  }

  lemma TakeKeeps(s: State, who: Actor, got: seq<Surface>)
    requires Shape(s) && Enabled(s, Take(who, got))
    ensures SameSurfaces(s, Apply(s, Take(who, got)))
  {
    Lent(s.disp.pushed, multiset(got), if who.RecycleThread? then HandBag(s.disp.fetcher) else HandBag(s.disp.recycler));
    TakeEffect(s, who, got);
  }

  lemma TakeEffect(s: State, who: Actor, got: seq<Surface>)
    requires Shape(s) && Enabled(s, Take(who, got))
    ensures var d, d' := s.disp, Apply(s, Take(who, got)).disp;
            && d'.pushed == d.pushed - multiset(got) && HandBag(HandOf(d, who)) == multiset{}
            && HandBag(d'.recycler) == (if who.RecycleThread? then multiset(got) else HandBag(d.recycler))
            && HandBag(d'.fetcher) == (if who.RecycleThread? then HandBag(d.fetcher) else multiset(got))
  {
  }

  lemma Lent(a: multiset<Surface>, f: multiset<Surface>, b: multiset<Surface>)
    requires f <= a
    ensures (a - f) + f + b == a + multiset{} + b && (a - f) + b + f == a + b + multiset{}
  {
  }

  lemma OutInv(s: State, step: Step)
    requires Inv(s) && Enabled(s, step)
    requires step.Push? || step.PushFailed? || step.CheckpointTimeout?
    ensures Inv(Apply(s, step))
  {
    var s' := Apply(s, step);
    OutEffect(s, step);
    HandedOver(multiset(s.disp.ring.Contents()), HeldBag(s.phase), Away(s), s.disp.lost);
    Moved(s, s');
  }

  /** The surface held goes to the display client or is lost. */
  lemma OutEffect(s: State, step: Step)
    requires Shape(s) && Enabled(s, step)
    requires step.Push? || step.PushFailed? || step.CheckpointTimeout?
    ensures var s' := Apply(s, step);
            && s'.disp.ring == s.disp.ring && HeldBag(s'.phase) == multiset{}
            && (step.Push? ==> Away(s') == Away(s) + HeldBag(s.phase) && s'.disp.lost == s.disp.lost)
            && (!step.Push? ==> Away(s') == Away(s) && s'.disp.lost == s.disp.lost + HeldBag(s.phase))
  {
    assert HeldBag(s.phase) == multiset{s.phase.out};
    if step.Push? {
      HandedOver(s.disp.pushed, multiset{s.phase.out}, HandBag(s.disp.recycler), HandBag(s.disp.fetcher));
    }
  }

  lemma HandedOver(r: multiset<Surface>, h: multiset<Surface>, a: multiset<Surface>, l: multiset<Surface>)
    ensures r + multiset{} + (a + h) + l == r + h + a + l == r + multiset{} + a + (l + h)
    ensures r + h + a + l == (r + a + l) + h
  {
  }

  lemma PutBackInv(s: State)
    requires Inv(s) && Enabled(s, PutBack)
    ensures Inv(Apply(s, PutBack))
  {
    var s' := Apply(s, PutBack);
    RingFits(s);
    WriteAppends(s.disp.ring, s.phase.out);
    assert multiset(s'.disp.ring.Contents()) == multiset(s.disp.ring.Contents()) + HeldBag(s.phase);
    assert Live(s') == Live(s);
  }

  /** The surface a recycling thread is about to store, if it holds any. */
  function Storing(s: State, who: Actor): seq<Surface>
    requires HandOf(s.disp, who).Taken?
  {
    First(HandOf(s.disp, who).got)
  }

  lemma FirstAndRest(h: Hand)
    requires h.Taken?
    ensures HandBag(h) == HandBag(AfterStore(h)) + multiset(First(h.got))
  {
    if h.got != [] { assert h.got == [h.got[0]] + h.got[1..]; }
  }

  /** What a recycling thread holds is disjoint from ring and composer, so what of it is still
      an owner fits beside them. */
  lemma HandFits(s: State, who: Actor)
    requires Inv(s) && Enabled(s, Store(who))
    ensures multiset(s.disp.ring.Contents()) + HeldBag(s.phase) + s.disp.lost
            + multiset(Current(Storing(s, who), s.disp.buffers))
            + multiset(Current(Stale(Storing(s, who), s.disp.buffers), s.disp.owners)) <= multiset(s.disp.owners)
    ensures s.disp.ring.count + |HeldBag(s.phase)| + |Current(Storing(s, who), s.disp.buffers)| <= NUM_DISP_BUFFERS
  {
    var got := Storing(s, who);
    HandIsLive(s, who);
    LiveIsOwned(s, who);
    OwnedFits(Live(s), multiset(s.disp.ring.Contents()) + HeldBag(s.phase) + s.disp.lost, got, s.disp.buffers, s.disp.owners);
    CardOfThree(multiset(s.disp.ring.Contents()), HeldBag(s.phase), s.disp.lost, multiset(Current(got, s.disp.buffers)),
                multiset(Current(Stale(got, s.disp.buffers), s.disp.owners)), multiset(s.disp.owners));
  }

  /** A surface in a thread's hand that is a display buffer is an owner. */
  lemma LiveIsOwned(s: State, who: Actor)
    requires Inv(s) && Enabled(s, Store(who))
    ensures forall x :: x in Storing(s, who) && x in s.disp.buffers ==> x in s.disp.owners
  {
    HandIsLive(s, who);
    forall x | x in Storing(s, who) && x in s.disp.buffers ensures x in s.disp.owners {
      assert x in multiset(Storing(s, who));
      assert x in Live(s);
    }
  }

  lemma {:induction false} CurrentIn(got: seq<Surface>, buffers: seq<Surface>)
    ensures forall x :: x in Current(got, buffers) ==> x in got
  {
    if got != [] { CurrentIn(got[1..], buffers); }
  }

  lemma HandIsLive(s: State, who: Actor)
    requires Inv(s) && Enabled(s, Store(who))
    ensures multiset(s.disp.ring.Contents()) + HeldBag(s.phase) + s.disp.lost + multiset(Storing(s, who)) <= Live(s)
  {
    FirstAndRest(HandOf(s.disp, who));
  }

  lemma CardOfThree(r: multiset<Surface>, h: multiset<Surface>, l: multiset<Surface>, c: multiset<Surface>,
                    o: multiset<Surface>, owners: multiset<Surface>)
    requires r + h + l + c + o <= owners
    ensures |r| + |h| + |c| <= |owners|
  {
    assert r + h + c <= owners;
    CardMonotone(r + h + c, owners);
  }

  lemma OwnedFits(live: multiset<Surface>, inside: multiset<Surface>, got: seq<Surface>, buffers: seq<Surface>, owners: seq<Surface>)
    requires Distinct(owners) && (forall x :: live[x] <= 1)
    requires inside <= multiset(owners) && inside + multiset(got) <= live
    requires forall x :: x in got && x in buffers ==> x in owners
    ensures inside + multiset(Current(got, buffers)) + multiset(Current(Stale(got, buffers), owners)) <= multiset(owners)
  {
    KeptParts(got, buffers, owners);
    var cur, old_ := multiset(Current(got, buffers)), multiset(Current(Stale(got, buffers), owners));
    UnderOwners(live, inside, multiset(got), cur + old_, owners);
    assert inside + cur + old_ == inside + (cur + old_);
  }

  /** What is stored or lost of the surfaces brought back are owners among them. */
  lemma KeptParts(got: seq<Surface>, buffers: seq<Surface>, owners: seq<Surface>)
    requires forall x :: x in got && x in buffers ==> x in owners
    ensures multiset(Current(got, buffers)) + multiset(Current(Stale(got, buffers), owners)) <= multiset(got)
    ensures forall x :: x in multiset(Current(got, buffers)) + multiset(Current(Stale(got, buffers), owners)) ==> x in owners
  {
    SplitConserves(got, buffers);
    SplitConserves(Stale(got, buffers), owners);
    CurrentIn(got, buffers);
    PartOfRest(multiset(got), multiset(Current(got, buffers)), multiset(Stale(got, buffers)),
               multiset(Current(Stale(got, buffers), owners)), multiset(Stale(Stale(got, buffers), owners)));
    assert forall x :: x in Current(got, buffers) <==> x in multiset(Current(got, buffers));
  }

  lemma PartOfRest(whole: multiset<Surface>, part: multiset<Surface>, rest: multiset<Surface>,
                   second: multiset<Surface>, last: multiset<Surface>)
    requires whole == part + rest && rest == second + last
    ensures part + second <= whole
  {
  }

  lemma UnderOwners(live: multiset<Surface>, inside: multiset<Surface>, whole: multiset<Surface>, parts: multiset<Surface>,
                    owners: seq<Surface>)
    requires Distinct(owners) && (forall x :: live[x] <= 1) && inside + whole <= live && parts <= whole
    requires inside <= multiset(owners) && forall x :: x in parts ==> x in owners
    ensures inside + parts <= multiset(owners)
  {
    forall x ensures (inside + parts)[x] <= multiset(owners)[x] {
      DistinctOnce(owners, x);
      assert (inside + whole)[x] <= live[x] <= 1;
    }
  }

  /** Dropping surfaces that are not owners keeps the invariant. */
  lemma Shrunk(s: State, s': State, gone: multiset<Surface>)
    requires Inv(s) && Shape(s') && s'.phase == s.phase && Live(s) == Live(s') + gone
    requires forall x :: x in gone ==> x !in s.disp.owners
    requires s'.disp.owners == s.disp.owners && s'.disp.buffers == s.disp.buffers && s'.disp.replaced == s.disp.replaced
    requires multiset(s'.disp.ring.Contents()) + HeldBag(s'.phase) + s'.disp.lost <= multiset(s.disp.owners)
    requires s'.phase.Reading? ==> s'.phase.slot == s'.disp.ring.LastRead() && s'.disp.ring.slots[s'.phase.slot] == s'.phase.read
    ensures Inv(s')
  {
    assert forall x :: Live(s')[x] <= Live(s)[x];
    forall x | x in s.disp.owners ensures Live(s')[x] == Live(s)[x] { assert gone[x] == 0; }
  }

  lemma Regroup(r: multiset<Surface>, h: multiset<Surface>, a: multiset<Surface>, l: multiset<Surface>,
                c: multiset<Surface>, k: multiset<Surface>, g: multiset<Surface>)
    ensures r + h + (a + (c + (k + g))) + l == (r + c) + h + a + (l + k) + g
  {
  }

  lemma StoreLive(s: State, who: Actor, s': State)
    requires Shape(s) && Enabled(s, Store(who)) && s' == Apply(s, Store(who)) && Shape(s')
    requires s.disp.ring.count + |Current(Storing(s, who), s.disp.buffers)| <= NUM_DISP_BUFFERS
    ensures multiset(s'.disp.ring.Contents())
            == multiset(s.disp.ring.Contents()) + multiset(Current(Storing(s, who), s.disp.buffers))
    ensures s'.disp.lost == s.disp.lost + multiset(Current(Stale(Storing(s, who), s.disp.buffers), s.disp.owners))
    ensures Away(s) == Away(s') + multiset(Storing(s, who))
  {
    StoreAllAppends(s.disp.ring, Storing(s, who), s.disp.buffers);
    FirstAndRest(HandOf(s.disp, who));
  }

  /** A slot just read survives recycling that leaves one slot free. */
  lemma StoreReading(r: Ring, got: seq<Surface>, buffers: seq<Surface>)
    requires r.Valid() && r.count + |Current(got, buffers)| < NUM_DISP_BUFFERS
    ensures StoreAll(r, got, buffers).slots[r.LastRead()] == r.slots[r.LastRead()]
    ensures StoreAll(r, got, buffers).LastRead() == r.LastRead()
  {
    StoreAllAppends(r, got, buffers);
  }

  /** The surfaces before a recycle are those after it plus the stale ones it discards. */
  lemma StoreBags(s: State, who: Actor, s': State, g: multiset<Surface>)
    requires Shape(s) && Enabled(s, Store(who)) && s' == Apply(s, Store(who)) && Shape(s')
    requires s.disp.ring.count + |Current(Storing(s, who), s.disp.buffers)| <= NUM_DISP_BUFFERS
    requires g == multiset(Stale(Stale(Storing(s, who), s.disp.buffers), s.disp.owners))
    ensures Live(s) == Live(s') + g
    ensures multiset(s'.disp.ring.Contents()) + HeldBag(s'.phase) + s'.disp.lost
        == multiset(s.disp.ring.Contents()) + HeldBag(s.phase) + s.disp.lost
           + multiset(Current(Storing(s, who), s.disp.buffers))
           + multiset(Current(Stale(Storing(s, who), s.disp.buffers), s.disp.owners))
  {
    var got := Storing(s, who);
    var c, stale := Current(got, s.disp.buffers), Stale(got, s.disp.buffers);
    var k := Current(stale, s.disp.owners);
    StoreLive(s, who, s');
    SplitConserves(got, s.disp.buffers);
    SplitConserves(stale, s.disp.owners);
    Regroup(multiset(s.disp.ring.Contents()), HeldBag(s.phase), Away(s'), s.disp.lost, multiset(c), multiset(k), g);
  }

  lemma StoreInv(s: State, who: Actor)
    requires Inv(s) && Enabled(s, Store(who))
    ensures Inv(Apply(s, Store(who)))
  {
    ShapeKept(s, Store(who));
    var s' := Apply(s, Store(who));
    var stale := Stale(Storing(s, who), s.disp.buffers);
    HandFits(s, who);
    if s.phase.Reading? {
      assert |HeldBag(s.phase)| == 1;
      StoreReading(s.disp.ring, Storing(s, who), s.disp.buffers);
    }
    StoreBags(s, who, s', multiset(Stale(stale, s.disp.owners)));
    SplitConserves(stale, s.disp.owners);
    Shrunk(s, s', multiset(Stale(stale, s.disp.owners)));
  }

  lemma StepInv(s: State, step: Step)
    requires Inv(s) && Enabled(s, step)
    ensures Inv(Apply(s, step))
  {
    match step
    case SwapBuffer(_) => SwapInv(s, step);
    case SwapFailed(_) => SwapInv(s, step);
    case Reinit => ReinitInv(s);
    case ReadSlot => ReadInv(s);
    case Dereference => DereferenceInv(s);
    case Take(who, got) => TakeInv(s, who, got);
    case Store(who) => StoreInv(s, who);
    case PutBack => PutBackInv(s);
    case Push => OutInv(s, step);
    case PushFailed => OutInv(s, step);
    case CheckpointTimeout => OutInv(s, step);
    case _ => IdleInv(s, step);
  }

  lemma {:induction false} RunInv(s: State, run: seq<Step>)
    requires Inv(s) && Legal(s, run)
    ensures Inv(After(s, run))
    decreases |run|
  {
    if run != [] {
      StepInv(s, run[0]);
      RunInv(Apply(s, run[0]), run[1..]);
    }
  }
}
