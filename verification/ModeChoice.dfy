/** Choosing a capture mode and cropping its frames to the size asked for.

    The camera driver offers a list of modes.  `Init` takes the closest one that covers the
    requested size; each captured YUYV frame is then cropped around its centre. */
module ModeChoice {
  import opened Common
  import opened RowCopy

  datatype Mode = Mode(width: int, height: int, fps: int) {
    function Area(): int { width * height }
  }

  /** What is asked of the camera. */
  datatype Request = Request(width: int, height: int, fps: int) {
    predicate CoveredBy(m: Mode) {
      m.width >= width && m.height >= height
    }

    function ExtraArea(m: Mode): int { m.Area() - width * height }

    function FpsDistance(m: Mode): (d: int)
      ensures d >= 0 && (m.fps == fps + d || m.fps == fps - d)
    {
      if m.fps - fps < 0 then fps - m.fps else m.fps - fps
    }

    /** Less extra area, or the same and a closer frame rate. */
    predicate Closer(a: Mode, b: Mode) {
      ExtraArea(a) < ExtraArea(b) || (ExtraArea(a) == ExtraArea(b) && FpsDistance(a) < FpsDistance(b))
    }

    /** No covering mode is smaller than the request; any request for a real size has this. */
    ghost predicate Sensible(modes: seq<Mode>) {
      forall i :: 0 <= i < |modes| && CoveredBy(modes[i]) ==> ExtraArea(modes[i]) >= 0
    }

    /** Mode `k` covers the request, none of the first `n` modes is closer, and none before it is
        as close. */
    ghost predicate Best(modes: seq<Mode>, n: nat, k: nat)
      requires n <= |modes|
    {
      && k < n && CoveredBy(modes[k])
      && (forall i :: 0 <= i < n && CoveredBy(modes[i]) ==> !Closer(modes[i], modes[k]))
      && (forall i :: 0 <= i < k && CoveredBy(modes[i]) ==> Closer(modes[k], modes[i]))
    }
  }

  lemma RealSizesAreSensible(r: Request, modes: seq<Mode>)
    requires r.width >= 0 && r.height >= 0
    ensures r.Sensible(modes)
  {
    forall i | 0 <= i < |modes| && r.CoveredBy(modes[i]) ensures r.ExtraArea(modes[i]) >= 0 {
      var m := modes[i];
      assert m.width * m.height >= r.width * m.height >= r.width * r.height;
    }
  }

  /** The best mode has the least area of those that cover the request, and of those of its area its
      frame rate is between that of any other and its mirror image at the requested rate. */
  lemma BestMeans(r: Request, modes: seq<Mode>, k: nat, i: nat)
    requires r.Best(modes, |modes|, k) && i < |modes| && modes[i].width >= r.width && modes[i].height >= r.height
    ensures var m, o := modes[k], modes[i];
            && m.width * m.height <= o.width * o.height
            && (m.width * m.height == o.width * o.height ==>
                  if o.fps >= r.fps then 2 * r.fps - o.fps <= m.fps <= o.fps else o.fps <= m.fps <= 2 * r.fps - o.fps)
  {
    assert !r.Closer(modes[i], modes[k]);
  }

  /** The running-best loop, with its -1 for nothing found yet. */
  method Closest(modes: seq<Mode>, r: Request) returns (chosen: Option<nat>)
    ensures chosen.Some? ==> chosen.value < |modes| && r.CoveredBy(modes[chosen.value])
    ensures r.Sensible(modes) ==> (chosen.Some? <==> exists m :: m in modes && r.CoveredBy(m))
    ensures r.Sensible(modes) && chosen.Some? ==> r.Best(modes, |modes|, chosen.value)
  {
    var closest, dArea, dFps := 0, -1, -1;
    var i := 0;
    while i < |modes|
      invariant 0 <= i <= |modes|
      invariant dArea != -1 ==> closest < i && r.CoveredBy(modes[closest])
      invariant r.Sensible(modes) ==> dArea >= -1
      invariant r.Sensible(modes) && dArea == -1 ==> forall j :: 0 <= j < i ==> !r.CoveredBy(modes[j])
      invariant r.Sensible(modes) && dArea >= 0 ==>
                  && r.Best(modes, i, closest)
                  && dArea == r.ExtraArea(modes[closest]) && dFps == r.FpsDistance(modes[closest])
    {
      var sd := modes[i];
      if sd.width >= r.width && sd.height >= r.height {
        var difArea, difFps := r.ExtraArea(sd), r.FpsDistance(sd);
        if dArea < 0 || difArea < dArea || (difArea == dArea && difFps < dFps) {
          dArea, dFps, closest := difArea, difFps, i;
        }
      }
      i := i + 1;
    }
    return if dArea == -1 then None else Some(closest);
  }

  // ------------------------------------------------------------------ cropping

  /** (n >> 1) & -2: half of `n`, rounded down to even. */
  function EvenHalf(n: int): (e: int)
    ensures n >= 0 ==> 0 <= e <= n
  {
    n / 2 - n / 2 % 2
  }

  /** The margin is even and leaves the picture centred: what remains on the far side is the same,
      or up to three pixels more. */
  lemma MarginCentres(n: int)
    ensures EvenHalf(n) % 2 == 0 && 0 <= (n - EvenHalf(n)) - EvenHalf(n) <= 3
  {
  }

  /** A YUYV pixel is two bytes. */
  const BYTES_PER_PIXEL: nat := 2

  class V4L2Camera {
    var outWidth: int
    var outHeight: int
    var outFrameSize: int
    var bytesPerLine: nat
    var sizeImage: nat
    var cropOffset: nat

    constructor ()
      ensures outFrameSize == 0
    {
      outWidth, outHeight, outFrameSize, bytesPerLine, sizeImage, cropOffset := 0, 0, 0, 0, 0, 0;
    }

    /** Every row of the crop lies inside the captured frame. */
    ghost predicate ReadsInside()
      reads this
    {
      && outWidth >= 0
      && outFrameSize == outWidth * outHeight * 2
      && HasRows(sizeImage, cropOffset, bytesPerLine, 2 * outWidth, outHeight)
    }

    /** Sets the closest mode; `driver` is the size the driver settles on, with its own line length
        and image size. */
    method Init(modes: seq<Mode>, r: Request, accepted: bool, driver: Mode, line: nat, image: nat)
      returns (ok: bool, chosen: nat)
      requires driver.width >= 0 && driver.height >= 0
      modifies this
      ensures r.Sensible(modes) ==> (ok <==> accepted && exists m :: m in modes && r.CoveredBy(m))
      ensures ok ==> chosen < |modes| && r.CoveredBy(modes[chosen])
      ensures ok && r.Sensible(modes) ==> r.Best(modes, |modes|, chosen)
      ensures ok ==> Cropped(modes[chosen], r, driver)
      ensures ok && r.width >= 0 && driver.width == modes[chosen].width && driver.height == modes[chosen].height ==>
                ReadsInside()
    {
      ok, chosen := false, 0;
      if modes == [] { return; }
      var best := Closest(modes, r);
      if best.None? || !accepted { return; }
      ok, chosen := true, best.value;
      SetCrop(modes[chosen], r, driver, line, image);
    }

    /** The settings for a crop of mode `m` when the driver captures frames of size `driver`: the
        first row copied starts in line `startY`, `startX` pixels on. */
    ghost predicate Cropped(m: Mode, r: Request, driver: Mode)
      requires r.CoveredBy(m) && driver.height >= 0
      reads this
    {
      && outWidth == r.width && outHeight == r.height && outFrameSize == r.width * r.height * 2
      && bytesPerLine >= 2 * driver.width && sizeImage >= Start(0, bytesPerLine, driver.height)
      && cropOffset == Start(BYTES_PER_PIXEL * EvenHalf(m.width - r.width), bytesPerLine, EvenHalf(m.height - r.height))
    }

    method SetCrop(m: Mode, r: Request, driver: Mode, line: nat, image: nat)
      requires r.CoveredBy(m) && driver.width >= 0 && driver.height >= 0
      modifies this
      ensures Cropped(m, r, driver)
      ensures r.width >= 0 && driver.width == m.width && driver.height == m.height ==> ReadsInside()
    {
      outWidth, outHeight, outFrameSize := r.width, r.height, r.width * r.height * 2;
      SetLines(driver, line, image);
      var startX, startY := EvenHalf(m.width - r.width), EvenHalf(m.height - r.height);
      // The corrections for a mode smaller than the request are never needed.
      assert startX >= 0 && startY >= 0;
      SetOffset(startX, startY);
      if r.width >= 0 && driver.width == m.width && driver.height == m.height {
        CropInside(bytesPerLine, driver, startX, startY, r.width, r.height, sizeImage);
      }
    }

    /** Line length and image size, at least those the picture needs. */
    method SetLines(driver: Mode, line: nat, image: nat)
      requires driver.width >= 0 && driver.height >= 0
      modifies this`bytesPerLine, this`sizeImage
      ensures bytesPerLine == if line < driver.width * 2 then driver.width * 2 else line
      ensures sizeImage >= Start(0, bytesPerLine, driver.height) && sizeImage >= image
    {
      bytesPerLine := if line < driver.width * 2 then driver.width * 2 else line;
      var least := bytesPerLine * driver.height;
      StartIs(0, bytesPerLine, driver.height);
      sizeImage := if image < least then least else image;
    }

    method SetOffset(startX: nat, startY: nat)
      modifies this`cropOffset
      ensures cropOffset == Start(BYTES_PER_PIXEL * startX, bytesPerLine, startY)
    {
      StartIs(BYTES_PER_PIXEL * startX, bytesPerLine, startY);
      cropOffset := startX * BYTES_PER_PIXEL + bytesPerLine * startY;
    }

    /** Copies one captured YUYV frame; a buffer too small drops the frame. */
    method GrabRawFrame(mem: array<byte>, dst: array<byte>, maxSize: int) returns (grabbed: bool)
      requires ReadsInside() && mem.Length >= sizeImage && mem != dst && maxSize <= dst.Length
      modifies dst
      ensures grabbed <==> maxSize >= outFrameSize
      ensures !grabbed ==> dst[..] == old(dst[..])
      ensures grabbed && outHeight >= 0 ==>
                Laid(dst[..], old(dst[..]), 2 * outWidth, mem[..], cropOffset, bytesPerLine, 2 * outWidth, outHeight)
    {
      if maxSize < outFrameSize { return false; }
      if outHeight > 0 {
        forall r: nat | r < outHeight ensures Start(0, 2 * outWidth, r) + 2 * outWidth <= dst.Length {
          StartIs(0, 2 * outWidth, outHeight);
          Ordered(r, outHeight, 0, 2 * outWidth);
          assert outFrameSize == 2 * outWidth * outHeight;
        }
        CopyRows(dst, 2 * outWidth, mem, cropOffset, bytesPerLine, 2 * outWidth, outHeight);
      }
      return true;
    }
  }

  lemma {:induction false} StartShift(offset: nat, pitch: nat, a: nat, b: nat)
    ensures Start(Start(offset, pitch, a), pitch, b) == Start(offset, pitch, a + b)
  {
    if b > 0 { StartShift(offset, pitch, a, b - 1); }
  }

  lemma {:induction false} StartFrom(offset: nat, pitch: nat, a: nat)
    ensures Start(offset, pitch, a) == offset + Start(0, pitch, a)
  {
    if a > 0 { StartFrom(offset, pitch, a - 1); }
  }

  /** Row `row` of the crop starts in line `startY + row`, `startX` pixels on. */
  lemma CropRowStart(line: nat, startX: nat, startY: nat, row: nat)
    ensures Start(Start(BYTES_PER_PIXEL * startX, line, startY), line, row)
            == BYTES_PER_PIXEL * startX + Start(0, line, startY + row)
  {
    StartShift(BYTES_PER_PIXEL * startX, line, startY, row);
    StartFrom(BYTES_PER_PIXEL * startX, line, startY + row);
  }

  lemma NotBefore(line: nat, a: nat, b: nat)
    requires a <= b
    ensures Start(0, line, a) <= Start(0, line, b)
  {
    Ordered(a, b, 0, line);
  }

  /** Every row of the crop of a frame of the chosen size ends inside the frame. */
  lemma CropInside(line: nat, m: Mode, startX: nat, startY: nat, w: nat, h: int, image: nat)
    requires m.height >= 0 && line >= 2 * m.width && startX + w <= m.width && startY + h <= m.height
    requires image >= Start(0, line, m.height)
    ensures HasRows(image, Start(BYTES_PER_PIXEL * startX, line, startY), line, 2 * w, h)
  {
    var offset := Start(BYTES_PER_PIXEL * startX, line, startY);
    forall row: nat | row < h ensures Start(offset, line, row) + 2 * w <= image {
      CropRowStart(line, startX, startY, row);
      NotBefore(line, startY + row + 1, m.height);
    }
  }

  /** A driver may settle on a size other than the chosen one.  The crop is read inside the image
      exactly if its last row ends there. */
  lemma ReadInsideIff(line: nat, image: nat, startX: nat, startY: nat, w: nat, h: nat)
    requires h > 0
    ensures HasRows(image, Start(BYTES_PER_PIXEL * startX, line, startY), line, 2 * w, h)
            <==> 2 * (startX + w) + line * (startY + h - 1) <= image
  {
    var offset := Start(BYTES_PER_PIXEL * startX, line, startY);
    CropRowStart(line, startX, startY, h - 1);
    StartIs(0, line, startY + h - 1);
    forall row: nat | row < h ensures Start(offset, line, row) <= Start(offset, line, h - 1) {
      CropRowStart(line, startX, startY, row);
      NotBefore(line, startY + row, startY + h - 1);
    }
  }

  /** The `n` bytes at `from` are pixels of line `y` of the driver's picture. */
  predicate InLine(driver: Mode, line: nat, from: nat, n: nat, y: nat) {
    && y < driver.height && Start(0, line, y) <= from
    && from + n <= Start(0, line, y) + BYTES_PER_PIXEL * driver.width
  }

  /** The bytes `GrabRawFrame` reads for row `row` of a crop of mode `m` are pixels of the line of the
      driver's picture that row stands for. */
  ghost predicate RowShown(c: V4L2Camera, m: Mode, r: Request, driver: Mode, row: nat)
    requires r.CoveredBy(m)
    reads c
  {
    && c.outWidth >= 0
    && InLine(driver, c.bytesPerLine, Start(c.cropOffset, c.bytesPerLine, row), 2 * c.outWidth,
              EvenHalf(m.height - r.height) + row)
  }

  lemma RowShownIff(c: V4L2Camera, m: Mode, r: Request, driver: Mode, row: nat)
    requires r.CoveredBy(m) && driver.height >= 0 && c.Cropped(m, r, driver) && r.width >= 0
    ensures RowShown(c, m, r, driver, row)
            <==> EvenHalf(m.width - r.width) + r.width <= driver.width && EvenHalf(m.height - r.height) + row < driver.height
  {
    CropRowStart(c.bytesPerLine, EvenHalf(m.width - r.width), EvenHalf(m.height - r.height), row);
  }

  /** And the bytes the copy reads are, row for row, pixels of the line they stand for exactly if the
      crop fits the driver's picture both ways.  Otherwise some row takes the padding of its line, or
      runs on into the next one, or comes from below the picture. */
  lemma ShownInsideIff(c: V4L2Camera, m: Mode, r: Request, driver: Mode)
    requires r.CoveredBy(m) && driver.height >= 0 && c.Cropped(m, r, driver) && r.width >= 0 && r.height > 0
    ensures (forall row: nat :: row < c.outHeight ==> RowShown(c, m, r, driver, row))
            <==> EvenHalf(m.width - r.width) + r.width <= driver.width && EvenHalf(m.height - r.height) + r.height <= driver.height
  {
    forall row: nat
      ensures RowShown(c, m, r, driver, row)
              <==> EvenHalf(m.width - r.width) + r.width <= driver.width && EvenHalf(m.height - r.height) + row < driver.height
    {
      RowShownIff(c, m, r, driver, row);
    }
    var last: nat := r.height - 1;
    assert RowShown(c, m, r, driver, last)
           ==> EvenHalf(m.height - r.height) + r.height <= driver.height;
  }
}
