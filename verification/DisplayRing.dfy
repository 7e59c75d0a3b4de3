/** The three-slot display ring of the primary display and the in-place recycling loop.

    `Ring` is the value of a BFIFO head: the element array, the read position and the
    fill count.  As in the composer, a write never checks for a full ring: that the ring
    never overflows is proved of the protocol, not tested by the code. */
module DisplayRing {

  /** A display surface handle; zero is the null handle. */
  type Surface = nat

  const NUM_DISP_BUFFERS: nat := 3

  datatype Ring = Ring(slots: seq<Surface>, rd: nat, count: nat) {
    predicate Valid() {
      |slots| == NUM_DISP_BUFFERS && rd < NUM_DISP_BUFFERS
    }

    /** The queued surfaces, oldest first. */
    function Contents(): (c: seq<Surface>)
      requires Valid()
      ensures |c| == count
    {
      seq(count, i requires 0 <= i < count => slots[(rd + i) % NUM_DISP_BUFFERS])
    }

    function Write(s: Surface): (r: Ring)
      requires Valid()
    {
      Ring(slots[(rd + count) % NUM_DISP_BUFFERS := s], rd, count + 1)
    }

    function ReadCommit(): (r: Ring)
      requires Valid() && count > 0
    {
      Ring(slots, (rd + 1) % NUM_DISP_BUFFERS, count - 1)
    }

    /** The slot most recently read: the one a reader may still be dereferencing. */
    function LastRead(): (i: nat)
      requires Valid()
    {
      (rd + NUM_DISP_BUFFERS - 1) % NUM_DISP_BUFFERS
    }
  }

  function Filled(buffers: seq<Surface>): (r: Ring) {
    Ring(buffers, 0, NUM_DISP_BUFFERS)
  }

  /** Surfaces of `got` that are still display buffers. */
  function Current(got: seq<Surface>, buffers: seq<Surface>): (c: seq<Surface>) {
    if got == [] then []
    else (if got[0] in buffers then [got[0]] else []) + Current(got[1..], buffers)
  }

  /** Surfaces of `got` left over from an earlier set of display buffers. */
  function Stale(got: seq<Surface>, buffers: seq<Surface>): (c: seq<Surface>) {
    if got == [] then []
    else (if got[0] in buffers then [] else [got[0]]) + Stale(got[1..], buffers)
  }

  /** The ring after recycling `got`: only surfaces that still are display buffers re-enter it. */
  function StoreAll(r: Ring, got: seq<Surface>, buffers: seq<Surface>): (r': Ring)
    requires r.Valid()
    ensures r'.Valid() && r'.rd == r.rd && r'.count >= r.count
    decreases got
  {
    if got == [] then r
    else StoreAll(if got[0] in buffers then r.Write(got[0]) else r, got[1..], buffers)
  }

  lemma WriteAppends(r: Ring, s: Surface)
    requires r.Valid() && r.count < NUM_DISP_BUFFERS
    ensures r.Write(s).Contents() == r.Contents() + [s]
    ensures r.count < NUM_DISP_BUFFERS - 1 ==> r.Write(s).slots[r.LastRead()] == r.slots[r.LastRead()]
  {
    var w := r.Write(s);
    forall i | 0 <= i < w.count
      ensures w.Contents()[i] == (r.Contents() + [s])[i]
    {
    }
  }

  lemma ReadDropsOldest(r: Ring)
    requires r.Valid() && r.count > 0
    ensures r.ReadCommit().Valid()
    ensures r.Contents() == [r.slots[r.rd]] + r.ReadCommit().Contents()
    ensures r.ReadCommit().LastRead() == r.rd
  {
    var q := r.ReadCommit();
    forall i | 0 <= i < q.count
      ensures q.Contents()[i] == r.Contents()[i + 1]
    {
    }
  }

  /** Recycling appends exactly the current surfaces, in order; a reader's slot survives
      as long as one slot stays free. */
  lemma {:induction false} StoreAllAppends(r: Ring, got: seq<Surface>, buffers: seq<Surface>)
    requires r.Valid() && r.count + |Current(got, buffers)| <= NUM_DISP_BUFFERS
    ensures StoreAll(r, got, buffers).Contents() == r.Contents() + Current(got, buffers)
    ensures r.count + |Current(got, buffers)| < NUM_DISP_BUFFERS ==>
              StoreAll(r, got, buffers).slots[r.LastRead()] == r.slots[r.LastRead()]
    decreases got
  {
    if got != [] {
      if got[0] in buffers {
        WriteAppends(r, got[0]);
        StoreAllAppends(r.Write(got[0]), got[1..], buffers);
      } else {
        StoreAllAppends(r, got[1..], buffers);
      }
    }
  }

  /** Recycling neither invents nor forgets a surface. */
  lemma {:induction false} SplitConserves(got: seq<Surface>, buffers: seq<Surface>)
    ensures multiset(got) == multiset(Current(got, buffers)) + multiset(Stale(got, buffers))
    ensures forall x :: x in Current(got, buffers) ==> x in buffers
    ensures forall x :: x in Stale(got, buffers) ==> x !in buffers
  {
    if got != [] {
      SplitConserves(got[1..], buffers);
      assert got == [got[0]] + got[1..];
    }
  }

  /** The ring as the code holds it: a fixed element array with a read position and a count. */
  class DisplayFifo {
    const elements: array<Surface>
    var rd: nat
    var count: nat

    ghost predicate Valid()
      reads this
    {
      elements.Length == NUM_DISP_BUFFERS && rd < NUM_DISP_BUFFERS
    }

    ghost function View(): (r: Ring)
      requires Valid()
      reads this, elements
      ensures r.Valid()
    {
      Ring(elements[..], rd, count)
    }

    constructor ()
      ensures Valid() && fresh(elements)
    {
      elements := new Surface[NUM_DISP_BUFFERS];
      rd, count := 0, 0;
    }

    /** BFIFO_INIT over the three new buffers followed by a commit of all of them. */
    method Init(buffers: seq<Surface>)
      requires Valid() && |buffers| == NUM_DISP_BUFFERS
      modifies this, elements
      ensures Valid() && View() == Filled(buffers)
    {
      for j := 0 to NUM_DISP_BUFFERS
        invariant Valid()
        invariant elements[..j] == buffers[..j]
      {
        elements[j] := buffers[j];
      }
      assert buffers[..NUM_DISP_BUFFERS] == buffers;
      rd, count := 0, NUM_DISP_BUFFERS;
    }

    /** hwc_put_disp_surface: a null surface is ignored, any other is appended. */
    method Put(surface: Surface)
      requires Valid()
      modifies this, elements
      ensures Valid()
      ensures View() == if surface != 0 then old(View()).Write(surface) else old(View())
    {
      if surface != 0 {
        elements[(rd + count) % NUM_DISP_BUFFERS] := surface;
        count := count + 1;
      }
    }

    /** The locked part of hwc_recycle_now. */
    method Recycle(got: seq<Surface>, buffers: seq<Surface>)
      requires Valid()
      modifies this, elements
      ensures Valid() && View() == StoreAll(old(View()), got, buffers)
    {
      var i := 0;
      while i < |got|
        invariant 0 <= i <= |got| && Valid()
        invariant StoreAll(View(), got[i..], buffers) == StoreAll(old(View()), got, buffers)
      {
        ghost var before := View();
        if got[i] in buffers {
          elements[(rd + count) % NUM_DISP_BUFFERS] := got[i];
          count := count + 1;
          assert View() == before.Write(got[i]);
        }
        assert got[i..][1..] == got[i + 1..];
        i := i + 1;
      }
    }

    /** The locked part of hwc_get_disp_surface: the slot is committed before it is dereferenced. */
    method ReadSlot() returns (slot: nat)
      requires Valid() && count > 0
      modifies this
      ensures Valid() && View() == old(View()).ReadCommit()
      ensures slot == View().LastRead() && elements[slot] == old(View()).Contents()[0]
    {
      slot := rd;
      rd := (rd + 1) % NUM_DISP_BUFFERS;
      count := count - 1;
    }
  }
}
