/** Where the bytes of a YV12 buffer are.

    The allocator, the mapper, the destriper, the composer and the camera each work out the planes
    of a YV12 buffer for themselves.  The layout is checked here byte by byte: every byte of the
    buffer belongs to exactly one place in exactly one plane. */
module Yv12Layout {

  const ALIGNMENT: nat := 16

  /** (n + 15) & ~15 on a number that does not overflow. */
  function Align(n: int): int {
    (n + ALIGNMENT - 1) / ALIGNMENT * ALIGNMENT
  }

  /** The mask clears what the division drops. */
  lemma MaskIsDivision(n: bv32)
    ensures n & 0xffff_fff0 == n / 16 * 16
  {
    assert n / 16 == n >> 4;
  }

  lemma AlignCovers(n: int)
    ensures n <= Align(n) < n + ALIGNMENT && Align(n) % ALIGNMENT == 0
  {
  }

  /** Stride and size chosen by the allocator. */
  function AllocatedStride(w: nat): nat { Align(w) }

  function AllocatedSize(w: nat, h: nat): nat {
    AllocatedStride(w) * h + 2 * ((h / 2) * Align(AllocatedStride(w) / 2))
  }

  datatype Plane = Plane(offset: nat, pitch: nat, width: nat, rows: nat)

  datatype Planes = Planes(y: Plane, cr: Plane, cb: Plane)

  /** The pointers and strides given to a CPU client. */
  function MapperPlanes(w: nat, h: nat, stride: nat): Planes {
    var cstride := Align(stride / 2);
    var cr := stride * h;
    var cb := cr + (h / 2) * cstride;
    Planes(Plane(0, stride, w, h), Plane(cr, cstride, w / 2, h / 2), Plane(cb, cstride, w / 2, h / 2))
  }

  /** The surfaces the destriper writes. */
  function DestriperPlanes(w: nat, h: nat, stride: nat): Planes {
    Planes(Plane(0, stride, w, h),
           Plane(stride * h, Align(stride / 2), w / 2, h / 2),
           Plane(stride * h + (h / 2) * Align(stride / 2), Align(stride / 2), w / 2, h / 2))
  }

  /** The surfaces the composer reads. */
  function ComposerPlanes(w: nat, h: nat, stride: nat): Planes {
    var cstride, crOffset := Align(stride / 2), stride * h;
    var cbOffset := crOffset + (h / 2) * Align(stride / 2);
    Planes(Plane(0, stride, w, h), Plane(crOffset, cstride, w / 2, h / 2), Plane(cbOffset, cstride, w / 2, h / 2))
  }

  /** A place in a buffer: plane 0 is Y, 1 is Cr, 2 is Cb. */
  datatype Place = Place(plane: nat, row: nat, col: nat)

  function PlaneOf(p: Planes, k: nat): Plane {
    if k == 0 then p.y else if k == 1 then p.cr else p.cb
  }

  predicate InPlanes(p: Planes, at: Place) {
    at.plane <= 2 && at.row < PlaneOf(p, at.plane).rows && at.col < PlaneOf(p, at.plane).pitch
  }

  function Address(p: Planes, at: Place): nat {
    PlaneOf(p, at.plane).offset + at.row * PlaneOf(p, at.plane).pitch + at.col
  }

  /** The planes follow one another without a gap and end where the buffer ends, and every row of
      samples fits its pitch. */
  predicate Tiled(p: Planes, size: nat) {
    && p.y.offset == 0
    && p.cr.offset == p.y.rows * p.y.pitch
    && p.cb.offset == p.cr.offset + p.cr.rows * p.cr.pitch
    && size == p.cb.offset + p.cb.rows * p.cb.pitch
    && p.y.width <= p.y.pitch && p.cr.width <= p.cr.pitch && p.cb.width <= p.cb.pitch
  }

  /** Mapper, destriper and composer agree on every plane, and the planes tile the allocation, for
      odd widths and heights too. */
  lemma ViewsTileTheBuffer(w: nat, h: nat)
    ensures var p := MapperPlanes(w, h, AllocatedStride(w));
            && p == DestriperPlanes(w, h, AllocatedStride(w)) && p == ComposerPlanes(w, h, AllocatedStride(w))
            && Tiled(p, AllocatedSize(w, h))
            && (p.y.pitch > 0 <==> p.cr.pitch > 0) && p.cr.pitch == p.cb.pitch
  {
    var stride := AllocatedStride(w);
    AlignCovers(w);
    AlignCovers(stride / 2);
    assert w / 2 <= stride / 2;
  }

  lemma AtLeast(a: nat, b: nat)
    requires a >= 1
    ensures a * b >= b
  {
  }

  lemma DivUnique(n: nat, d: nat, q: nat, r: nat)
    requires n == q * d + r && r < d
    ensures n / d == q && n % d == r
  {
    var q', r' := n / d, n % d;
    assert (q - q') * d == r' - r by {
      assert n == q' * d + r';
      assert (q - q') * d == q * d - q' * d;
    }
    if q' < q { AtLeast(q - q', d); }
    assert (q' - q) * d == -((q - q') * d);
    if q' > q { AtLeast(q' - q, d); }
  }

  lemma RowInside(row: nat, rows: nat, pitch: nat, col: nat)
    requires row < rows && col < pitch
    ensures row * pitch + col < rows * pitch
    ensures (row * pitch + col) / pitch == row && (row * pitch + col) % pitch == col
  {
    AtLeast(rows - row, pitch);
    assert (rows - row) * pitch == rows * pitch - row * pitch;
    DivUnique(row * pitch + col, pitch, row, col);
  }

  lemma RowFound(off: nat, rows: nat, pitch: nat)
    requires off < rows * pitch
    ensures pitch > 0 && off / pitch < rows && off / pitch * pitch + off % pitch == off
  {
    assert pitch > 0;
    var row := off / pitch;
    assert (row - rows) * pitch == row * pitch - rows * pitch;
    if row > rows { AtLeast(row - rows, pitch); }
  }

  /** The place of a byte. */
  function Locate(p: Planes, address: nat): (at: Place)
    requires p.y.pitch > 0 && p.cr.pitch > 0 && p.cb.pitch > 0 && p.y.offset == 0 && p.cr.offset <= p.cb.offset
  {
    var k := if address < p.cr.offset then 0 else if address < p.cb.offset then 1 else 2;
    var off := address - PlaneOf(p, k).offset;
    Place(k, off / PlaneOf(p, k).pitch, off % PlaneOf(p, k).pitch)
  }

  /** No two places share a byte, and no place is outside the allocation. */
  lemma PlaceHasItsByte(p: Planes, size: nat, at: Place)
    requires Tiled(p, size) && p.y.pitch > 0 && p.cr.pitch > 0 && p.cb.pitch > 0
    requires InPlanes(p, at)
    ensures Address(p, at) < size && Locate(p, Address(p, at)) == at
  {
    var q := PlaneOf(p, at.plane);
    RowInside(at.row, q.rows, q.pitch, at.col);
    var within := at.row * q.pitch + at.col;
    assert Address(p, at) == q.offset + within && q.offset + q.rows * q.pitch <= size;
    LocateInPlane(p, at.plane, within, size);
  }

  /** An address inside a plane is looked up in that plane. */
  lemma LocateInPlane(p: Planes, k: nat, within: nat, size: nat)
    requires Tiled(p, size) && p.y.pitch > 0 && p.cr.pitch > 0 && p.cb.pitch > 0
    requires k <= 2 && within < PlaneOf(p, k).rows * PlaneOf(p, k).pitch
    ensures Locate(p, PlaneOf(p, k).offset + within)
            == Place(k, within / PlaneOf(p, k).pitch, within % PlaneOf(p, k).pitch)
  {
  }

  /** Every byte of the allocation is some place: nothing is left between the planes. */
  lemma ByteHasItsPlace(p: Planes, size: nat, address: nat)
    requires Tiled(p, size) && p.y.pitch > 0 && p.cr.pitch > 0 && p.cb.pitch > 0
    requires address < size
    ensures InPlanes(p, Locate(p, address)) && Address(p, Locate(p, address)) == address
  {
    var k := Locate(p, address).plane;
    RowFound(address - PlaneOf(p, k).offset, PlaneOf(p, k).rows, PlaneOf(p, k).pitch);
  }

  /** So for every buffer the places of its three planes and the bytes of its allocation are in
      one-to-one correspondence. */
  lemma PlacesAreBytes(w: nat, h: nat, at: Place, address: nat)
    requires w > 0
    ensures var p := MapperPlanes(w, h, AllocatedStride(w));
            && p.y.pitch > 0 && p.cr.pitch > 0 && p.cb.pitch > 0
            && (InPlanes(p, at) && Address(p, at) == address
                <==> address < AllocatedSize(w, h) && Locate(p, address) == at)
  {
    var p := MapperPlanes(w, h, AllocatedStride(w));
    AlignCovers(w);
    ViewsTileTheBuffer(w, h);
    if InPlanes(p, at) { PlaceHasItsByte(p, AllocatedSize(w, h), at); }
    if address < AllocatedSize(w, h) { ByteHasItsPlace(p, AllocatedSize(w, h), address); }
  }

  /** The camera's frame size for the same format, on whatever numbers its parameters hold. */
  function CameraSize(w: int, h: int): int {
    var stride := Align(w);
    CameraSizeOf(stride, Align(stride / 2), h)
  }

  function CameraSizeOf(stride: int, cStride: int, h: int): int {
    stride * h + cStride * h / 2 * 2
  }

  /** With an even chroma stride nothing is lost by halving after the multiplication, so the camera
      has what the allocator drops of an odd height. */
  lemma CameraExceeds(stride: int, c: int, half: int, h: nat)
    requires c == 2 * half
    ensures CameraSizeOf(stride, c, h) == stride * h + c * h
    ensures c * h - 2 * ((h / 2) * c) == if h % 2 == 0 then 0 else c
  {
    var k := h / 2;
    assert c * h == 2 * (half * h);
    assert c * h == 2 * (k * c) + c * (h % 2) by { assert h == 2 * k + h % 2; }
  }

  /** Half of an aligned number. */
  function HalfAligned(n: int): int { 8 * ((n + ALIGNMENT - 1) / ALIGNMENT) }

  lemma AlignTwice(n: int)
    ensures Align(n) == 2 * HalfAligned(n)
  {
  }

  lemma ChromaStride(w: nat, c: int)
    requires c == Align(Align(w) / 2)
    ensures c >= 0 && (c == 0 <==> w == 0) && Align(w) >= w && 2 * c >= w
  {
    AlignTwice(w);
    assert Align(w) / 2 == HalfAligned(w);
    AlignCovers(w);
    AlignCovers(HalfAligned(w));
  }

  /** The camera halves after multiplying where the allocator halves the height first: the sizes
      agree exactly for even heights, or when there is nothing to store. */
  lemma CameraAgreesIff(w: nat, h: nat)
    ensures CameraSize(w, h) == AllocatedSize(w, h) <==> h % 2 == 0 || w == 0
    ensures CameraSize(w, h) >= AllocatedSize(w, h)
  {
    var stride, c := Align(w), Align(Align(w) / 2);
    ChromaStride(w, c);
    AlignTwice(stride / 2);
    CameraExceeds(stride, c, HalfAligned(stride / 2), h);
  }

  lemma Larger(a: int, b: int, h: nat)
    requires a >= b
    ensures a * h >= b * h
  {
    assert (a - b) * h >= 0;
    assert (a - b) * h == a * h - b * h;
  }

  lemma RoomFor(stride: int, c: int, half: int, w: nat, h: nat)
    requires c == 2 * half && stride >= w && 2 * c >= w
    ensures CameraSizeOf(stride, c, h) >= w * h * 3 / 2
  {
    CameraExceeds(stride, c, half, h);
    Larger(stride, w, h);
    TwiceLarger(c, w, h);
    ThreeHalves(stride * h, c * h, w * h);
  }

  lemma TwiceLarger(c: int, w: int, h: nat)
    requires 2 * c >= w
    ensures 2 * (c * h) >= w * h
  {
    Larger(2 * c, w, h);
    assert (2 * c) * h == 2 * (c * h);
  }

  lemma ThreeHalves(a: int, b: int, p: int)
    requires a >= p && 2 * b >= p
    ensures a + b >= p * 3 / 2
  {
  }

  /** It has room for twelve bits a pixel, however the width is aligned. */
  lemma CameraSizeHoldsPicture(w: nat, h: nat)
    ensures CameraSize(w, h) >= w * h * 3 / 2
  {
    var stride, c := Align(w), Align(Align(w) / 2);
    ChromaStride(w, c);
    AlignTwice(stride / 2);
    RoomFor(stride, c, HalfAligned(stride / 2), w, h);
  }
}
