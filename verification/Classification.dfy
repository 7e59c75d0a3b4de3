/** Which layers the hardware composes and which are left to OpenGL.

    `Setup` is the composer's pass over the layer list before a frame, rewriting composition types
    in place.  `Assigned` says what type each layer must end up with; the lemmas below say what the
    rest of the composer relies on. */
module Classification {

  datatype Kind = Framebuffer | Overlay | Background | Sideband | Target | CursorOverlay

  /** A layer and what the pass finds out about its buffer: whether it has one, whether the hardware
      can scale it, and whether it is a video buffer or a sideband stream with a decoder. */
  datatype Layer = Layer(kind: Kind, skip: bool, handle: bool, scalable: bool, video: bool) {
    predicate IsVideo() {
      ((kind.Overlay? && handle) || kind.Sideband?) && video && !skip
    }

    /** The same layer but for its type. */
    predicate SameBut(l: Layer) { this == l.(kind := kind) }
  }

  /** How OpenGL may be used: the two properties are set from one string and exclude each other. */
  datatype Mode = Fallback | Always | Never

  // ------------------------------------------------------------------ specification

  /** A layer the composer decides about. */
  predicate Open(l: Layer) {
    l.kind.Framebuffer? || l.kind.Overlay? || l.kind.Background?
  }

  /** The hardware could take the layer on its own merits. */
  predicate Takes(mode: Mode, l: Layer) {
    !l.skip && l.handle && !mode.Always? && (mode.Fallback? ==> l.scalable)
  }

  ghost predicate SomeLeft(mode: Mode, s: seq<Layer>) {
    exists i :: 0 <= i < |s| && Open(s[i]) && !Takes(mode, s[i])
  }

  ghost predicate HasVideo(mode: Mode, s: seq<Layer>) {
    exists i :: 0 <= i < |s| && WillBeVideo(mode, s[i])
  }

  predicate WillBeVideo(mode: Mode, l: Layer) {
    l.video && !l.skip && (l.kind.Sideband? || (Open(l) && Takes(mode, l)))
  }

  /** The framebuffer target is composed for this list. */
  ghost predicate Needs(mode: Mode, s: seq<Layer>) {
    SomeLeft(mode, s) && (mode.Fallback? || (mode.Always? && !HasVideo(mode, s)))
  }

  /** The type layer `l` of the list `s` ends up with. */
  ghost function Assigned(mode: Mode, s: seq<Layer>, l: Layer): Kind {
    if !Open(l) then l.kind
    else if Takes(mode, l) && (Needs(mode, s) ==> l.video) then Overlay
    else Framebuffer
  }

  ghost predicate Done(mode: Mode, s: seq<Layer>, t: seq<Layer>) {
    |t| == |s| && forall i :: 0 <= i < |s| ==> t[i].SameBut(s[i]) && t[i].kind == Assigned(mode, s, s[i])
  }

  // ------------------------------------------------------------------ the passes

  /** The type after the first pass, for one layer. */
  function First(mode: Mode, l: Layer): Layer {
    if !Open(l) then l else if Takes(mode, l) then l.(kind := Overlay) else l.(kind := Framebuffer)
  }

  function Videos(s: seq<Layer>): nat {
    if s == [] then 0 else Videos(s[..|s| - 1]) + if s[|s| - 1].IsVideo() && !s[|s| - 1].kind.Sideband? then 1 else 0
  }

  function Sidebands(s: seq<Layer>): nat {
    if s == [] then 0 else Sidebands(s[..|s| - 1]) + if s[|s| - 1].IsVideo() && s[|s| - 1].kind.Sideband? then 1 else 0
  }

  class Context {
    const mode: Mode
    var needsFbTarget: bool
    var prepareVideo: nat
    var prepareSideband: nat

    constructor (mode: Mode)
      ensures this.mode == mode
    {
      this.mode := mode;
      needsFbTarget, prepareVideo, prepareSideband := false, 0, 0;
    }

    /** Pass one: everything the composer decides about becomes an overlay where it can. */
    method MakeOverlays(list: array<Layer>) returns (skipLayer: int)
      modifies list
      ensures forall i :: 0 <= i < list.Length ==> list[i] == First(mode, old(list[i]))
      ensures skipLayer != -1 ==> mode.Fallback? && 0 <= skipLayer < list.Length
                                  && Open(old(list[skipLayer])) && old(list[skipLayer]).skip
    {
      skipLayer := -1;
      var i := 0;
      while i < list.Length
        invariant 0 <= i <= list.Length
        invariant forall j :: 0 <= j < i ==> list[j] == First(mode, old(list[j]))
        invariant forall j :: i <= j < list.Length ==> list[j] == old(list[j])
        invariant skipLayer != -1 ==> mode.Fallback? && 0 <= skipLayer < i
                                      && Open(old(list[skipLayer])) && old(list[skipLayer]).skip
      {
        if list[i].kind.Background? { list[i] := list[i].(kind := Framebuffer); }
        if list[i].kind.Framebuffer? || list[i].kind.Overlay? {
          list[i] := list[i].(kind := Framebuffer);
          if list[i].skip {
            if mode.Fallback? { skipLayer := i; }
          } else if list[i].handle {
            list[i] := list[i].(kind := Overlay);
            if mode.Always? || (mode.Fallback? && !list[i].scalable) {
              list[i] := list[i].(kind := Framebuffer);
            }
          }
        }
        i := i + 1;
      }
    }

    /** Pass two: counts the video layers. */
    method CountVideo(list: array<Layer>) returns (hasVideo: bool)
      modifies this`prepareVideo, this`prepareSideband
      ensures hasVideo <==> exists i :: 0 <= i < list.Length && list[i].IsVideo()
      ensures prepareVideo == Videos(list[..]) && prepareSideband == Sidebands(list[..])
    {
      hasVideo, prepareVideo, prepareSideband := false, 0, 0;
      var i := 0;
      while i < list.Length
        invariant 0 <= i <= list.Length
        invariant hasVideo <==> exists j :: 0 <= j < i && list[j].IsVideo()
        invariant prepareVideo == Videos(list[..i]) && prepareSideband == Sidebands(list[..i])
      {
        if list[i].IsVideo() {
          hasVideo := true;
          if list[i].kind.Sideband? {
            prepareSideband := prepareSideband + 1;
          } else {
            prepareVideo := prepareVideo + 1;
          }
        }
        assert list[..i + 1][..i] == list[..i];
        i := i + 1;
      }
      assert list[..] == list[..list.Length];
    }

    method FindFramebuffer(list: array<Layer>) returns (found: bool)
      ensures found <==> exists i :: 0 <= i < list.Length && list[i].kind.Framebuffer?
    {
      var i := 0;
      while i < list.Length
        invariant 0 <= i <= list.Length
        invariant forall j :: 0 <= j < i ==> !list[j].kind.Framebuffer?
      {
        if list[i].kind.Framebuffer? { return true; }
        i := i + 1;
      }
      return false;
    }

    /** Pass three: only video stays an overlay. */
    method GiveUpOverlays(list: array<Layer>)
      modifies list
      ensures forall i :: 0 <= i < list.Length ==> list[i] == WithoutOverlay(old(list[i]))
    {
      var i := 0;
      while i < list.Length
        invariant 0 <= i <= list.Length
        invariant forall j :: 0 <= j < i ==> list[j] == WithoutOverlay(old(list[j]))
        invariant forall j :: i <= j < list.Length ==> list[j] == old(list[j])
      {
        if list[i].kind.Overlay? && !list[i].IsVideo() {
          list[i] := list[i].(kind := Framebuffer);
        }
        i := i + 1;
      }
    }

    /** primary_composition_setup */
    method Setup(list: array<Layer>)
      modifies this, list
      ensures Done(mode, old(list[..]), list[..])
      ensures needsFbTarget <==> Needs(mode, old(list[..]))
      ensures prepareVideo + prepareSideband > 0 <==> HasVideo(mode, old(list[..]))
    {
      ghost var s := list[..];
      needsFbTarget := false;
      var skipLayer := MakeOverlays(list);
      ghost var s1 := list[..];
      var hasVideo := CountVideo(list);
      FirstPassMeans(mode, s, s1);
      VideosMeans(s1);
      assert forall i :: 0 <= i < list.Length ==> list[i] == s1[i];
      if mode.Fallback? || (mode.Always? && !hasVideo) {
        needsFbTarget := FindFramebuffer(list);
      }
      var giveUp := (mode.Fallback? && skipLayer != -1) || (mode.Always? && !hasVideo) || needsFbTarget;
      assert mode.Fallback? && skipLayer != -1 ==> Open(s[skipLayer]) && !Takes(mode, s[skipLayer]);
      if giveUp { GiveUpOverlays(list); }
      Settled(mode, s, s1, list[..], giveUp);
    }
  }

  /** What the passes leave, given that overlays are given up when the target is needed. */
  lemma Settled(mode: Mode, s: seq<Layer>, s1: seq<Layer>, t: seq<Layer>, gaveUp: bool)
    requires |s1| == |s| == |t|
    requires forall i :: 0 <= i < |s| ==> s1[i] == First(mode, s[i])
    requires forall i :: 0 <= i < |s| ==> t[i] == if gaveUp then WithoutOverlay(s1[i]) else s1[i]
    requires (Needs(mode, s) ==> gaveUp) && (gaveUp ==> Needs(mode, s) || mode.Always?)
    ensures Done(mode, s, t)
  {
  }

  function WithoutOverlay(l: Layer): Layer {
    if l.kind.Overlay? && !l.IsVideo() then l.(kind := Framebuffer) else l
  }

  lemma FirstPassMeans(mode: Mode, s: seq<Layer>, s1: seq<Layer>)
    requires |s1| == |s| && forall i :: 0 <= i < |s| ==> s1[i] == First(mode, s[i])
    ensures SomeLeft(mode, s) <==> exists i :: 0 <= i < |s1| && s1[i].kind.Framebuffer?
    ensures HasVideo(mode, s) <==> exists i :: 0 <= i < |s1| && s1[i].IsVideo()
  {
  }

  lemma {:induction false} VideosMeans(s: seq<Layer>)
    ensures Videos(s) + Sidebands(s) > 0 <==> exists i :: 0 <= i < |s| && s[i].IsVideo()
  {
    if s != [] {
      var rest := s[..|s| - 1];
      VideosMeans(rest);
      if i :| 0 <= i < |rest| && rest[i].IsVideo() { assert s[i].IsVideo(); }
      if i :| 0 <= i < |s| && s[i].IsVideo() { assert i < |rest| ==> rest[i].IsVideo(); }
    }
  }

  // ------------------------------------------------------------------ what it guarantees

  /** Which layers are overlays in the end.  In fallback mode those with a buffer that the hardware
      can scale and that are not to be skipped, and of these only the video ones unless every layer
      the composer decides about is such; never an OpenGL layer, whatever can be scaled; always, none. */
  lemma OverlaysAre(mode: Mode, s: seq<Layer>, t: seq<Layer>, i: nat)
    requires Done(mode, s, t) && i < |s|
    ensures t[i].kind.Overlay? <==>
              && (s[i].kind.Framebuffer? || s[i].kind.Overlay? || s[i].kind.Background?)
              && !s[i].skip && s[i].handle
              && match mode
                 case Fallback => s[i].scalable && (s[i].video || AllScalable(s))
                 case Never => true
                 case Always => false
  {
    if mode.Fallback? { LeftInFallback(s); }
  }

  ghost predicate AllScalable(s: seq<Layer>) {
    forall i :: 0 <= i < |s| && (s[i].kind.Framebuffer? || s[i].kind.Overlay? || s[i].kind.Background?) ==>
      !s[i].skip && s[i].handle && s[i].scalable
  }

  lemma LeftInFallback(s: seq<Layer>)
    ensures SomeLeft(Fallback, s) <==> !AllScalable(s)
  {
  }

  /** When the framebuffer target is composed: in fallback mode if some layer cannot be an overlay on
      its own merits, and when OpenGL is always used if there is such a layer at all and no sideband
      video is shown. */
  lemma TargetNeededIff(mode: Mode, s: seq<Layer>)
    ensures Needs(mode, s) <==>
              match mode
              case Fallback => !AllScalable(s)
              case Never => false
              case Always => (exists i :: 0 <= i < |s| && Open(s[i]))
                             && !exists i :: 0 <= i < |s| && s[i].kind.Sideband? && s[i].video && !s[i].skip
  {
    match mode
    case Fallback => LeftInFallback(s);
    case Never =>
    case Always =>
      if i :| 0 <= i < |s| && Open(s[i]) { assert !Takes(Always, s[i]); }
      if i :| 0 <= i < |s| && s[i].kind.Sideband? && s[i].video && !s[i].skip { assert WillBeVideo(Always, s[i]); }
  }

  /** In fallback mode the framebuffer target is needed exactly if some layer is left to OpenGL, and
      then nothing but video is still an overlay. */
  lemma FallbackAllOrVideo(s: seq<Layer>, t: seq<Layer>)
    requires Done(Fallback, s, t)
    ensures Needs(Fallback, s) <==> exists i :: 0 <= i < |t| && t[i].kind.Framebuffer?
    ensures Needs(Fallback, s) ==> forall i :: 0 <= i < |t| && t[i].kind.Overlay? ==> t[i].IsVideo()
    ensures forall i :: 0 <= i < |t| ==> !t[i].kind.Background?
  {
    if SomeLeft(Fallback, s) {
      var i :| 0 <= i < |s| && Open(s[i]) && !Takes(Fallback, s[i]);
      assert t[i].kind.Framebuffer?;
    }
  }

  /** Sideband, framebuffer target and cursor layers keep their type, and no layer changes in
      anything but its type. */
  lemma FixedKinds(mode: Mode, s: seq<Layer>, t: seq<Layer>, i: nat)
    requires Done(mode, s, t) && i < |s|
    requires s[i].kind.Sideband? || s[i].kind.Target? || s[i].kind.CursorOverlay?
    ensures t[i] == s[i]
  {
  }

  /** A second pass over the result changes no type, in any mode. */
  lemma Idempotent(mode: Mode, s: seq<Layer>, t: seq<Layer>, u: seq<Layer>)
    requires Done(mode, s, t) && Done(mode, t, u)
    ensures u == t && (Needs(mode, t) <==> Needs(mode, s))
  {
    assert forall i :: 0 <= i < |s| ==>
      Open(t[i]) == Open(s[i]) && Takes(mode, t[i]) == Takes(mode, s[i]) && WillBeVideo(mode, t[i]) == WillBeVideo(mode, s[i]);
    assert SomeLeft(mode, s) <==> SomeLeft(mode, t);
    assert HasVideo(mode, s) <==> HasVideo(mode, t);
  }
}
