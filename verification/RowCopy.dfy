/** Copying rows between pictures of different widths: the loop both camera files use, with one
    pointer a row in each picture. */
module RowCopy {

  newtype byte = n: int | 0 <= n < 256

  /** Where a row starts: the pointer moves on by one pitch a row. */
  function Start(offset: nat, pitch: nat, row: nat): nat {
    if row == 0 then offset else Start(offset, pitch, row - 1) + pitch
  }

  lemma {:induction false} StartIs(offset: nat, pitch: nat, row: nat)
    ensures Start(offset, pitch, row) == offset + pitch * row
  {
    if row > 0 { StartIs(offset, pitch, row - 1); }
  }

  lemma {:induction false} Ordered(a: nat, b: nat, offset: nat, pitch: nat)
    ensures a < b ==> Start(offset, pitch, a) + pitch <= Start(offset, pitch, b)
    decreases b
  {
    if a < b - 1 { Ordered(a, b - 1, offset, pitch); }
  }

  /** `count` rows of `n` bytes, the first at `offset`, each `pitch` after the one before, end within
      `len` bytes. */
  ghost predicate HasRows(len: nat, offset: nat, pitch: nat, n: nat, count: int) {
    forall r: nat :: r < count ==> Start(offset, pitch, r) + n <= len
  }

  /** The row of `pitch` bytes at `to`: its first `n` bytes come from the row at `from` of the source,
      the others are as before. */
  ghost predicate RowLaid(now: seq<byte>, was: seq<byte>, src: seq<byte>, to: nat, from: nat, pitch: nat, n: nat) {
    && |now| == |was| && from + n <= |src| && n <= pitch
    && forall k :: to <= k < to + pitch && k < |now| ==> now[k] == if k < to + n then src[from + k - to] else was[k]
  }

  /** `count` rows of `n` bytes of the source, the first at `offset`, are laid over the first rows of a
      picture; the rest of the picture is as before. */
  ghost predicate Laid(now: seq<byte>, was: seq<byte>, dstPitch: nat, src: seq<byte>, offset: nat, srcPitch: nat,
                       n: nat, count: nat)
  {
    && |now| == |was|
    && (forall r: nat :: r < count ==>
          RowLaid(now, was, src, Start(0, dstPitch, r), Start(offset, srcPitch, r), dstPitch, n))
    && (forall k :: Start(0, dstPitch, count) <= k < |now| ==> now[k] == was[k])
  }

  /** A row stays laid while bytes below it change. */
  lemma RowKept(before: seq<byte>, now: seq<byte>, was: seq<byte>, src: seq<byte>,
                to: nat, from: nat, pitch: nat, n: nat, below: nat)
    requires RowLaid(before, was, src, to, from, pitch, n) && |now| == |before| && to + pitch <= below
    requires forall k :: 0 <= k < |now| && k < below ==> now[k] == before[k]
    ensures RowLaid(now, was, src, to, from, pitch, n)
  {
  }

  /** A row laid where nothing had changed yet. */
  lemma RowAdded(before: seq<byte>, now: seq<byte>, was: seq<byte>, src: seq<byte>, to: nat, from: nat, pitch: nat, n: nat)
    requires RowLaid(now, before, src, to, from, pitch, n) && |was| == |before|
    requires forall k :: to <= k < |before| ==> before[k] == was[k]
    ensures RowLaid(now, was, src, to, from, pitch, n)
  {
  }

  /** One more row laid below those already there. */
  lemma LaidNext(before: seq<byte>, now: seq<byte>, was: seq<byte>, dstPitch: nat,
                 src: seq<byte>, offset: nat, srcPitch: nat, n: nat, h: nat)
    requires Laid(before, was, dstPitch, src, offset, srcPitch, n, h)
    requires RowLaid(now, before, src, Start(0, dstPitch, h), Start(offset, srcPitch, h), dstPitch, n)
    requires forall k :: 0 <= k < |now| && !(Start(0, dstPitch, h) <= k < Start(0, dstPitch, h) + n) ==> now[k] == before[k]
    ensures Laid(now, was, dstPitch, src, offset, srcPitch, n, h + 1)
  {
    forall r: nat | r < h + 1
      ensures RowLaid(now, was, src, Start(0, dstPitch, r), Start(offset, srcPitch, r), dstPitch, n)
    {
      if r < h {
        Ordered(r, h, 0, dstPitch);
        RowKept(before, now, was, src, Start(0, dstPitch, r), Start(offset, srcPitch, r), dstPitch, n, Start(0, dstPitch, h));
      } else {
        RowAdded(before, now, was, src, Start(0, dstPitch, h), Start(offset, srcPitch, h), dstPitch, n);
      }
    }
  }

  method CopyRows(dst: array<byte>, dstPitch: nat, src: array<byte>, offset: nat, srcPitch: nat, n: nat, count: nat)
    requires dst != src && n <= dstPitch
    requires HasRows(dst.Length, 0, dstPitch, n, count) && HasRows(src.Length, offset, srcPitch, n, count)
    modifies dst
    ensures Laid(dst[..], old(dst[..]), dstPitch, src[..], offset, srcPitch, n, count)
  {
    ghost var base, picture := dst[..], src[..];
    var h, to, from := 0, 0, offset;
    while h < count
      invariant 0 <= h <= count && to == Start(0, dstPitch, h) && from == Start(offset, srcPitch, h)
      invariant src[..] == picture && Laid(dst[..], base, dstPitch, picture, offset, srcPitch, n, h)
    {
      assert to + n <= dst.Length && from + n <= src.Length;
      ghost var before := dst[..];
      Memcpy(dst, to, src, from, n);
      LaidNext(before, dst[..], base, dstPitch, picture, offset, srcPitch, n, h);
      h, to, from := h + 1, to + dstPitch, from + srcPitch;
    }
  }

  method Memcpy(dst: array<byte>, to: nat, src: array<byte>, from: nat, n: nat)
    requires dst != src && to + n <= dst.Length && from + n <= src.Length
    modifies dst
    ensures forall k :: 0 <= k < dst.Length ==>
              dst[k] == if to <= k < to + n then src[from + k - to] else old(dst[k])
  {
    forall i | to <= i < to + n {
      dst[i] := src[from + i - to];
    }
  }
}
