/** Clipping a layer to the display surface before it is blitted.

    The composer trims the output rectangle of a layer to the surface and takes the same number of
    pixels off the source rectangle.  The two axes are independent; every claim is stated for one
    axis and `Clip` meets it on both. */
module Clipping {
  import opened Common

  type int16 = n: int | -0x8000 <= n < 0x8000
  type uint16 = n: int | 0 <= n < 0x1_0000

  /** Storing a sum in a 16-bit coordinate. */
  function Wrap(n: int): int16 {
    (n + 0x8000) % 0x1_0000 - 0x8000
  }

  datatype Rect = Rect(x: int16, y: int16, width: uint16, height: uint16)

  datatype Span = Span(start: int, len: nat)

  function Across(r: Rect): Span { Span(r.x, r.width) }
  function Down(r: Rect): Span { Span(r.y, r.height) }

  datatype Blit = Blit(src: Rect, out: Rect)

  function Max(a: int, b: int): int { if a < b then b else a }
  function Min(a: int, b: int): int { if a < b then a else b }

  /** The pixel `x` of the surface is covered by the span. */
  predicate Covers(s: Span, x: int) { s.start <= x < s.start + s.len }

  /** Length of the part of `pos` on a surface of `size` pixels. */
  function Overlap(pos: Span, size: nat): int {
    Min(size, pos.start + pos.len) - Max(0, pos.start)
  }

  /** Something of the layer is on the surface, and what is taken off leaves some of the source. */
  predicate Emitted(clip: Span, pos: Span, size: nat) {
    Overlap(pos, size) > 0 && clip.len > pos.len - Overlap(pos, size)
  }

  /** The spans of a blit for source `clip` shown at `pos`. */
  predicate Trimmed(clip: Span, pos: Span, size: nat, src: Span, out: Span) {
    && out == Span(Max(0, pos.start), Max(0, Overlap(pos, size)))
    && src.start == Wrap(clip.start + Max(0, -pos.start)) && src.len == clip.len - (pos.len - out.len)
  }

  /** The two corrections of one axis. */
  method ClipAxis(clip: Span, pos: Span, size: nat) returns (src: Span, out: Span)
    requires -0x8000 <= clip.start < 0x8000
    ensures out.len > 0 && src.len > 0 <==> Emitted(clip, pos, size)
    ensures Emitted(clip, pos, size) ==> Trimmed(clip, pos, size, src, out)
    ensures src.len <= clip.len && out.len <= pos.len && -0x8000 <= src.start < 0x8000
  {
    var srcStart, srcLen, outStart, outLen := clip.start, clip.len, pos.start, pos.len;
    if outStart < 0 {
      var adj := -outStart;
      outStart := 0;
      outLen := if adj <= outLen then outLen - adj else 0;
      srcStart := Wrap(srcStart + adj);
      srcLen := if adj <= srcLen then srcLen - adj else 0;
    }
    if outStart + outLen > size {
      var adj := outStart + outLen - size;
      outLen := if adj <= outLen then outLen - adj else 0;
      srcLen := if adj <= srcLen then srcLen - adj else 0;
    }
    return Span(srcStart, srcLen), Span(outStart, outLen);
  }

  /** The composer's clipping; the axes do not depend on each other. */
  method Clip(clip: Rect, pos: Rect, width: nat, height: nat) returns (r: Option<Blit>)
    ensures r.Some? <==> Emitted(Across(clip), Across(pos), width) && Emitted(Down(clip), Down(pos), height)
    ensures r.Some? ==>
              && Trimmed(Across(clip), Across(pos), width, Across(r.value.src), Across(r.value.out))
              && Trimmed(Down(clip), Down(pos), height, Down(r.value.src), Down(r.value.out))
  {
    var sx, ox := ClipAxis(Across(clip), Across(pos), width);
    var sy, oy := ClipAxis(Down(clip), Down(pos), height);
    if !(ox.len > 0 && oy.len > 0 && sx.len > 0 && sy.len > 0) { return None; }
    return Some(Blit(Rect(sx.start, sy.start, sx.len, sy.len), Rect(ox.start, oy.start, ox.len, oy.len)));
  }

  /** The output is the position intersected with the surface, pixel by pixel. */
  lemma OutputIsIntersection(clip: Span, pos: Span, size: nat, src: Span, out: Span, x: int)
    requires Trimmed(clip, pos, size, src, out)
    ensures Covers(out, x) <==> Covers(pos, x) && 0 <= x < size
  {
  }

  /** The source stays inside the layer's own rectangle exactly if its new start fits sixteen bits. */
  lemma SourceInsideIff(clip: Span, pos: Span, size: nat, src: Span, out: Span)
    requires -0x8000 <= clip.start < 0x8000 && clip.len < 0x1_0000 && -0x8000 <= pos.start
    requires Trimmed(clip, pos, size, src, out) && Emitted(clip, pos, size)
    ensures clip.start <= src.start && src.start + src.len <= clip.start + clip.len
            <==> clip.start + Max(0, -pos.start) < 0x8000
  {
  }

  /** Without scaling, every pixel shown keeps the source pixel the whole layer would have given it,
      and a layer is skipped only if nothing of it is on the surface. */
  lemma UnscaledKeepsPixels(clip: Span, pos: Span, size: nat, src: Span, out: Span)
    requires clip.len == pos.len && clip.start + clip.len <= 0x8000 && clip.start >= -0x8000
    requires Trimmed(clip, pos, size, src, out)
    ensures forall x :: Covers(out, x) ==>
              Covers(src, src.start + (x - out.start)) && src.start + (x - out.start) == clip.start + (x - pos.start)
    ensures Emitted(clip, pos, size) <==> exists x :: Covers(pos, x) && 0 <= x < size
    ensures src.len == out.len
  {
    if Emitted(clip, pos, size) { assert Covers(pos, Max(0, pos.start)); }
  }

  // ------------------------------------------------------------------ scaled layers

  /** The source point shown at the output coordinate `x` when `src` is stretched over `out`. */
  ghost function SourceOf(src: Span, out: Span, x: int): real
    requires out.len > 0
  {
    src.start as real + (x - out.start) as real * src.len as real / out.len as real
  }

  /** The clipped blit shows the same part of the source as the whole layer would. */
  ghost predicate SamePart(clip: Span, pos: Span, src: Span, out: Span)
    requires pos.len > 0 && out.len > 0
  {
    && SourceOf(src, out, out.start) == SourceOf(clip, pos, out.start)
    && SourceOf(src, out, out.start + out.len) == SourceOf(clip, pos, out.start + out.len)
  }

  lemma SameShareIff(a: real, c: real, p: real)
    requires p != 0.0
    ensures a * c / p == a <==> c == p || a == 0.0
  {
    assert a * c / p == a * (c / p);
  }

  lemma LeftEdge(clip: Span, pos: Span, src: Span, out: Span, left: int)
    requires pos.len > 0 && out.len > 0 && out.start == pos.start + left && src.start == clip.start + left
    ensures SourceOf(src, out, out.start) == SourceOf(clip, pos, out.start) <==> left == 0 || clip.len == pos.len
  {
    SameShareIff(left as real, clip.len as real, pos.len as real);
    assert SourceOf(src, out, out.start) - SourceOf(clip, pos, out.start) ==
           left as real - left as real * clip.len as real / pos.len as real;
  }

  lemma OwnEdge(src: Span, out: Span)
    requires out.len > 0
    ensures SourceOf(src, out, out.start + out.len) == src.start as real + src.len as real
  {
    Cancel(out.len as real, src.len as real);
  }

  lemma EdgeOf(clip: Span, pos: Span, right: int)
    requires pos.len > 0
    ensures SourceOf(clip, pos, pos.start + pos.len - right)
            == clip.start as real + (clip.len as real - right as real * clip.len as real / pos.len as real)
  {
    Remainder(pos.len as real, right as real, clip.len as real);
    assert (pos.len - right) as real == pos.len as real - right as real;
  }

  lemma SumsAgreeIff(a: real, b: real, c: real, d: real, share: real, right: real)
    requires a + b == c + d - right
    ensures a + b == c + (d - share) <==> share == right
  {
  }

  lemma RightEdge(clip: Span, pos: Span, src: Span, out: Span, right: int)
    requires pos.len > 0 && out.len > 0 && out.start + out.len == pos.start + pos.len - right
    requires src.start + src.len == clip.start + clip.len - right
    ensures SourceOf(src, out, out.start + out.len) == SourceOf(clip, pos, out.start + out.len)
            <==> right == 0 || clip.len == pos.len
  {
    OwnEdge(src, out);
    EdgeOf(clip, pos, right);
    var share := right as real * clip.len as real / pos.len as real;
    SumsAgreeIff(src.start as real, src.len as real, clip.start as real, clip.len as real, share, right as real);
    SameShareIff(right as real, clip.len as real, pos.len as real);
  }

  lemma Cancel(o: real, s: real)
    requires o != 0.0
    ensures o * s / o == s
  {
  }

  lemma Remainder(p: real, r: real, c: real)
    requires p != 0.0
    ensures (p - r) * c / p == c - r * c / p
  {
    Cancel(p, c);
    assert (p - r) * c == p * c - r * c;
  }

  /** A layer that is scaled and cut shows the right part exactly if it was not scaled or not cut:
      clipping takes output pixels, not source pixels, off the source. */
  lemma ScaledKeepsPartIff(clip: Span, pos: Span, size: nat, src: Span, out: Span)
    requires clip.start + clip.len <= 0x8000 && clip.start >= -0x8000
    requires Trimmed(clip, pos, size, src, out) && Emitted(clip, pos, size)
    ensures SamePart(clip, pos, src, out) <==> clip.len == pos.len || out == pos
  {
    var left, right := out.start - pos.start, pos.start + pos.len - (out.start + out.len);
    assert left == 0 && right == 0 <==> out == pos;
    LeftEdge(clip, pos, src, out, left);
    RightEdge(clip, pos, src, out, right);
  }

  /** An enlarged layer can even disappear: ten source pixels stretched over a hundred, twenty of
      them off the surface, are skipped although eighty would be seen. */
  lemma VisibleButSkipped() returns (clip: Span, pos: Span, size: nat)
    ensures Overlap(pos, size) == 80 && clip.len == 10 && !Emitted(clip, pos, size)
  {
    clip, pos, size := Span(0, 10), Span(-20, 100), 200;
  }
}
