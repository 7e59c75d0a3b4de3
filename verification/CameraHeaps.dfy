/** The camera's frame heaps and the restarts that keep them the right size.

    `InitHeapLocked` resizes the heaps, stopping the preview first and starting it again at the
    end; starting the preview may change the active size and calls `InitHeapLocked` in turn.  What
    this keeps is `Matches`: while the preview runs, every heap has the size its format and the
    active size call for, and the camera delivers frames of that size. */
module CameraHeaps {
  import opened Common
  import opened RowCopy
  import Yv12Layout

  datatype Size = Size(w: int, h: int)

  /** The preview and recording formats, by their parameter strings. */
  datatype Format =
    /** yuv422i-yuyv */
    | Yuyv
    /** yuv422sp */
    | Sp422
    /** yuv420sp */
    | Sp420
    /** yuv420p */
    | Yv12
    | Unsupported

  datatype Params = Params(preview: Size, previewFormat: Format, picture: Size, jpegPicture: bool,
                           video: Size, videoFormat: Format) {
    predicate Supported() {
      !previewFormat.Unsupported? && jpegPicture && !videoFormat.Unsupported?
    }

    /** The size to capture: the recording size takes precedence while frames are recorded. */
    function Active(videoActive: bool): Size {
      if videoActive then video else preview
    }

    /** The camera's own size replaces the one that is active, and nothing else. */
    function Effective(videoActive: bool, s: Size): (p: Params)
      ensures p.Active(videoActive) == s && p.Active(!videoActive) == Active(!videoActive)
    {
      if videoActive then this.(video := s) else this.(preview := s)
    }
  }

  /** What the camera answers when it is opened, set up and started, and the size it then has. */
  datatype Camera = Camera(open: bool, init: bool, size: Size, stream: bool) {
    predicate Starts() { open && init && stream }
  }

  /** What the allocator answers when the heaps are resized: whether it has room for each. */
  datatype Memory = Memory(raw: bool, preview: bool, rec: bool, picture: bool, jpeg: bool) {
    predicate Enough() { raw && preview && rec && picture && jpeg }
  }

  /** A heap of frames: the size of one, and how many bytes one buffer holds if it was allocated. */
  datatype Heap = Heap(frame: int, buffer: Option<nat>) {
    predicate Sound() {
      buffer.Some? ==> buffer.value == frame
    }

    /** A frame that has any bytes has its buffer. */
    predicate Filled() {
      frame > 0 ==> buffer.Some?
    }
  }

  /** A heap of another frame size replaces `h`, if there is room for it. */
  function Fit(h: Heap, bytes: int, room: bool): Heap
  {
    if h.frame == bytes then h else Heap(bytes, if room && bytes >= 0 then Some(bytes) else None)
  }

  /** What parameters and mode call for: the active size, and the format and frame size of each heap. */
  datatype Need = Need(active: Size, rawBytes: int, previewFormat: Format, previewBytes: int,
                       videoFormat: Format, recordingBytes: int, pictureBytes: int)

  function Calls(p: Params, videoActive: bool): Need {
    Need(p.Active(videoActive), YuyvBytes(p.Active(videoActive)),
         p.previewFormat, PreviewBytes(p.previewFormat, p.preview),
         p.videoFormat, RecordingBytes(p.videoFormat, p.video), YuyvBytes(p.picture))
  }

  /** The five heaps, the picture size that the raw frames have, and the formats of the frames for
      preview and recording. */
  datatype Heaps = Heaps(rawSize: Size, raw: Heap, previewFmt: Format, preview: Heap, recFmt: Format, rec: Heap,
                         picture: Heap, jpeg: Heap) {
    /** Nothing that makes a running preview stop has to change. */
    predicate Suit(n: Need) {
      && rawSize == n.active && raw.frame == n.rawBytes
      && preview.frame == n.previewBytes && rec.frame == n.recordingBytes
    }

    predicate Meet(n: Need) {
      Suit(n) && previewFmt == n.previewFormat && recFmt == n.videoFormat && picture.frame == jpeg.frame == n.pictureBytes
    }

    /** The JPEG heap is left out: it is replaced by one of the compressed size. */
    predicate Sound() {
      raw.Sound() && preview.Sound() && rec.Sound() && picture.Sound()
    }

    predicate Filled() {
      raw.Filled() && preview.Filled() && rec.Filled() && picture.Filled() && jpeg.Filled()
    }
  }

  /** Each heap of another frame size than is called for is replaced. */
  function Refit(h: Heaps, n: Need, m: Memory): Heaps {
    Heaps(n.active, Fit(h.raw, n.rawBytes, m.raw), n.previewFormat, Fit(h.preview, n.previewBytes, m.preview),
          n.videoFormat, Fit(h.rec, n.recordingBytes, m.rec),
          Fit(h.picture, n.pictureBytes, m.picture), Fit(h.jpeg, n.pictureBytes, m.jpeg))
  }

  /** A resize meets the need.  It keeps the heaps that already did, so that a preview that goes on
      keeps those it uses, and if there is room every frame that has any bytes has its buffer. */
  lemma Refitted(h: Heaps, n: Need, m: Memory)
    ensures var r := Refit(h, n, m);
            && r.Meet(n) && (h.Sound() ==> r.Sound())
            && (h.Meet(n) ==> r == h)
            && (h.Suit(n) ==> r.rawSize == h.rawSize && r.raw == h.raw && r.preview == h.preview && r.rec == h.rec)
            && (m.Enough() && h.Filled() ==> r.Filled())
  {
  }

  /** Each heap in its turn. */
  lemma OneByOne(h0: Heaps, h1: Heaps, h2: Heaps, h3: Heaps, h4: Heaps, n: Need, m: Memory)
    requires h1 == h0.(rawSize := n.active, raw := Fit(h0.raw, n.rawBytes, m.raw))
    requires h2 == h1.(previewFmt := n.previewFormat, preview := Fit(h1.preview, n.previewBytes, m.preview))
    requires h3 == h2.(recFmt := n.videoFormat, rec := Fit(h2.rec, n.recordingBytes, m.rec))
    requires h4 == h3.(picture := Fit(h3.picture, n.pictureBytes, m.picture), jpeg := Fit(h3.jpeg, n.pictureBytes, m.jpeg))
    ensures h4 == Refit(h0, n, m) && h1.preview == h0.preview && h2.rec == h0.rec
  {
  }

  lemma RefitTwice(h: Heaps, n: Need, m: Memory, again: Memory)
    ensures Refit(Refit(h, n, m), n, again) == Refit(h, n, m)
  {
    Refitted(h, n, m);
    Refitted(Refit(h, n, m), n, again);
  }

  function YuyvBytes(s: Size): int { s.w * s.h * 2 }

  function PreviewBytes(f: Format, s: Size): int {
    match f
    case Yuyv | Sp422 => YuyvBytes(s)
    case Sp420 => s.w * s.h * 3 / 2
    case Yv12 => Yv12Layout.CameraSize(s.w, s.h)
    case Unsupported => 0
  }

  /** Recording takes yuv422sp for a format of twelve bits a pixel. */
  function RecordingBytes(f: Format, s: Size): int {
    match f
    case Yuyv => YuyvBytes(s)
    case Sp422 | Sp420 => s.w * s.h * 3 / 2
    case Yv12 => Yv12Layout.CameraSize(s.w, s.h)
    case Unsupported => 0
  }

  /** Whatever the format, a frame has room for the twelve bits a pixel its converter writes; the
      unpadded formats have no more than their two bytes, or twelve bits, a pixel. */
  lemma FramesHoldPicture(f: Format, s: Size)
    requires !f.Unsupported? && s.w >= 0 && s.h >= 0
    ensures PreviewBytes(f, s) >= s.w * s.h * 3 / 2 && RecordingBytes(f, s) >= s.w * s.h * 3 / 2
    ensures f.Yuyv? ==> PreviewBytes(f, s) == RecordingBytes(f, s) == 2 * (s.w * s.h)
    ensures f.Sp422? ==> PreviewBytes(f, s) == 2 * (s.w * s.h)
    ensures f.Sp420? ==> 3 * (s.w * s.h) - 1 <= 2 * PreviewBytes(f, s) <= 3 * (s.w * s.h)
    ensures f.Sp422? || f.Sp420? ==> 3 * (s.w * s.h) - 1 <= 2 * RecordingBytes(f, s) <= 3 * (s.w * s.h)
  {
    NonNegative(s.w, s.h);
    Yv12Layout.CameraSizeHoldsPicture(s.w, s.h);
  }

  class CameraHardware {
    var params: Params
    /** mRequestMemory is set */
    var allocator: bool
    var recordingEnabled: bool
    /** CAMERA_MSG_VIDEO_FRAME is in mMsgEnabled */
    var videoMessages: bool
    /** mPreviewThread is set */
    var running: bool
    /** the size of the frames the open camera delivers */
    var delivered: Size
    var heaps: Heaps
    /** what was called for when the heaps were last resized; resizing takes an allocator */
    ghost var fitted: Option<Need>

    ghost predicate Sound()
      reads this
    {
      params.Supported() && heaps.Sound() && if fitted.None? then heaps.previewFmt.Unsupported? else heaps.Meet(fitted.value)
    }

    /** What parameters and mode call for now. */
    ghost function Needs(): Need
      reads this
    {
      Calls(params, VideoActive())
    }

    ghost predicate VideoActive()
      reads this
    {
      recordingEnabled && videoMessages
    }

    /** The size being captured. */
    ghost function Active(): Size
      reads this
    {
      params.Active(VideoActive())
    }

    ghost predicate Matches()
      reads this
    {
      heaps.Meet(Needs())
    }

    /** Between calls. */
    ghost predicate Valid()
      reads this
    {
      Sound() && (allocator && running ==> Matches() && delivered == heaps.rawSize)
    }

    constructor (defaults: Params)
      requires defaults.Supported()
      ensures Valid() && !running && !allocator && fitted.None? && params == defaults
    {
      params, allocator, recordingEnabled, videoMessages, running := defaults, false, false, false, false;
      delivered, fitted := Size(0, 0), None;
      heaps := Heaps(Size(0, 0), Heap(0, None), Unsupported, Heap(0, None), Unsupported, Heap(0, None),
                     Heap(0, None), Heap(0, None));
    }

    /** mRequestMemory */
    method Allocate(size: int, room: bool) returns (h: Heap)
      ensures h.frame == size && h.Sound() && (h.buffer.Some? <==> room && size >= 0)
    {
      return Heap(size, if room && size >= 0 then Some(size) else None);
    }

    method StopPreviewLocked()
      modifies this`running
      ensures !running
    {
      if running { running := false; }
    }

    /** The preview runs afterwards exactly if it did before or the camera starts.  A camera that is
        opened and set up replaces the active size by its own, and the heaps follow. */
    method StartPreviewLocked(camera: Camera, memory: Memory) returns (ok: bool)
      requires Valid()
      modifies this
      ensures allocator == old(allocator) && Mode() == old(Mode())
      ensures Valid() && ok == running
      ensures running <==> old(running) || camera.Starts()
      ensures old(running) || !camera.open || !camera.init ==>
                params == old(params) && delivered == old(delivered) && heaps == old(heaps) && fitted == old(fitted)
      ensures !old(running) && camera.open && camera.init ==>
                params == old(params).Effective(VideoActive(), camera.size) && delivered == camera.size
      ensures !old(running) && camera.open && camera.init && allocator ==>
                Matches() && heaps == Refit(old(heaps), Needs(), memory)
      ensures !allocator ==> heaps == old(heaps) && fitted == old(fitted)
      decreases 1
    {
      if running { return true; }
      if !camera.open { return false; }
      if !camera.init { return false; }
      delivered := camera.size;
      if recordingEnabled && videoMessages {
        params := params.(video := camera.size);
      } else {
        params := params.(preview := camera.size);
      }
      assert Needs() == Calls(old(params).Effective(VideoActive(), camera.size), VideoActive());
      RefitTwice(heaps, Needs(), memory, memory);
      InitHeapLocked(camera, memory, memory);
      if !camera.stream { return false; }
      running := true;
      return true;
    }

    /** With an allocator the heaps follow the parameters, and a preview that was running goes on if
        nothing it uses had to change; otherwise it is stopped, and runs again exactly if the camera
        starts.  `memory` answers the first resize and `again` that of the restart. */
    method InitHeapLocked(camera: Camera, memory: Memory, again: Memory)
      requires Sound() && (allocator && running ==> delivered == heaps.rawSize)
      modifies this
      ensures allocator == old(allocator) && Mode() == old(Mode())
      ensures Sound()
      ensures !allocator ==> running == old(running) && params == old(params) && delivered == old(delivered)
                             && heaps == old(heaps) && fitted == old(fitted)
      ensures allocator ==> Matches() && (running ==> delivered == heaps.rawSize)
      ensures allocator ==> (running <==> old(running) && (old(heaps.Suit(Needs())) || camera.Starts()))
      ensures params == if allocator && old(running && !heaps.Suit(Needs())) && camera.open && camera.init
                        then old(params).Effective(VideoActive(), camera.size) else old(params)
      ensures !old(running) || old(heaps.Suit(Needs())) ==> delivered == old(delivered)
      ensures allocator ==>
                heaps == Refit(Refit(old(heaps), old(Needs()), memory), Needs(), again)
      decreases if running then 2 else 0
    {
      if !allocator { return; }
      Refitted(heaps, Needs(), memory);
      var restart := Resize(memory);
      Refitted(heaps, Needs(), again);
      if restart {
        var started := StartPreviewLocked(camera, again);
      }
    }

    /** The part of initHeapLocked between its two returns: all heaps, stopping the preview first where
        one that it uses has to change. */
    method Resize(memory: Memory) returns (restart: bool)
      modifies this`running, this`heaps, this`fitted
      ensures fitted == Some(Needs())
      ensures restart == (old(running) && !running)
      ensures running <==> old(running) && old(heaps.Suit(Needs()))
      ensures heaps == Refit(old(heaps), Needs(), memory)
    {
      ghost var need, h0 := Needs(), heaps;
      restart := FitRaw(memory.raw, need);
      ghost var h1 := heaps;
      restart := FitPreview(restart, memory.preview, need);
      ghost var h2 := heaps;
      restart := FitRecording(restart, memory.rec, need);
      ghost var h3 := heaps;
      FitPictures(memory.picture, memory.jpeg, need);
      assert Needs() == need;
      OneByOne(h0, h1, h2, h3, heaps, need, memory);
      fitted := Some(need);
    }

    /** The raw frames are YUYV of the active size. */
    method FitRaw(room: bool, ghost need: Need) returns (restart: bool)
      requires need == Needs()
      modifies this`running, this`heaps
      ensures heaps == old(heaps).(rawSize := need.active, raw := Fit(old(heaps.raw), need.rawBytes, room))
      ensures running == (old(running) && !restart)
      ensures restart <==> old(running) && !old(heaps.rawSize == need.active && heaps.raw.frame == need.rawBytes)
    {
      restart := false;
      var big := 0;
      if recordingEnabled && videoMessages {
        big := YuyvBytes(params.video);
        if heaps.rawSize != params.video {
          if running {
            restart := true;
            StopPreviewLocked();
          }
          heaps := heaps.(rawSize := params.video);
        }
      } else {
        big := YuyvBytes(params.preview);
        if heaps.rawSize != params.preview {
          if running {
            restart := true;
            StopPreviewLocked();
          }
          heaps := heaps.(rawSize := params.preview);
        }
      }
      if big != heaps.raw.frame {
        if !restart && running {
          restart := true;
          StopPreviewLocked();
        }
        var h := Allocate(big, room);
        heaps := heaps.(raw := h);
      }
    }

    method FitPreview(restarting: bool, room: bool, ghost need: Need) returns (restart: bool)
      requires need == Needs() && (restarting ==> !running)
      modifies this`running, this`heaps
      ensures heaps == old(heaps).(previewFmt := need.previewFormat,
                                   preview := Fit(old(heaps.preview), need.previewBytes, room))
      ensures restart == (restarting || (old(running) && !running))
      ensures running <==> old(running) && old(heaps.preview.frame == need.previewBytes)
    {
      restart := restarting;
      heaps := heaps.(previewFmt := params.previewFormat);
      var big := PreviewBytes(heaps.previewFmt, params.preview);
      if big != heaps.preview.frame {
        if !restart && running {
          restart := true;
          StopPreviewLocked();
        }
        var h := Allocate(big, room);
        heaps := heaps.(preview := h);
      }
    }

    method FitRecording(restarting: bool, room: bool, ghost need: Need) returns (restart: bool)
      requires need == Needs() && (restarting ==> !running)
      modifies this`running, this`heaps
      ensures heaps == old(heaps).(recFmt := need.videoFormat,
                                   rec := Fit(old(heaps.rec), need.recordingBytes, room))
      ensures restart == (restarting || (old(running) && !running))
      ensures running <==> old(running) && old(heaps.rec.frame == need.recordingBytes)
    {
      restart := restarting;
      heaps := heaps.(recFmt := params.videoFormat);
      var big := RecordingBytes(heaps.recFmt, params.video);
      if big != heaps.rec.frame {
        if !restart && running {
          restart := true;
          StopPreviewLocked();
        }
        var h := Allocate(big, room);
        heaps := heaps.(rec := h);
      }
    }

    /** Pictures are taken with the preview running: their heaps are replaced under it. */
    method FitPictures(room: bool, jpegRoom: bool, ghost need: Need)
      requires need == Needs()
      modifies this`heaps
      ensures heaps == old(heaps).(picture := Fit(old(heaps.picture), need.pictureBytes, room),
                                   jpeg := Fit(old(heaps.jpeg), need.pictureBytes, jpegRoom))
    {
      var big := YuyvBytes(params.picture);
      if big != heaps.picture.frame {
        var h := Allocate(big, room);
        heaps := heaps.(picture := h);
      }
      if big != heaps.jpeg.frame {
        var h := Allocate(big, jpegRoom);
        heaps := heaps.(jpeg := h);
      }
    }

    // ---------------------------------------------------------------- the camera's interface

    method StartPreview(camera: Camera, memory: Memory) returns (ok: bool)
      requires Valid()
      modifies this
      ensures Valid() && ok == running
      ensures allocator == old(allocator) && Mode() == old(Mode())
      ensures running <==> old(running) || camera.Starts()
      ensures params == if !old(running) && camera.open && camera.init
                        then old(params).Effective(VideoActive(), camera.size) else old(params)
      ensures !old(running) && running ==> delivered == camera.size
      ensures allocator && running && memory.Enough() && old(heaps.Filled()) ==> heaps.Filled()
      ensures !allocator ==> fitted == old(fitted)
    {
      ok := StartPreviewLocked(camera, memory);
    }

    method StopPreview()
      requires Valid()
      modifies this`running
      ensures Valid() && !running
    {
      StopPreviewLocked();
    }

    /** Whether recording and video messages are on. */
    ghost function Mode(): (bool, bool)
      reads this
    {
      (recordingEnabled, videoMessages)
    }

    /** A preview that was running under `was` goes on if nothing it uses has to change for parameters
        `p` in the present mode, and otherwise runs again exactly if the camera starts; without an
        allocator nothing happens to it. */
    ghost predicate Follows(was: Heaps, ran: bool, p: Params, camera: Camera)
      reads this
    {
      && (running <==> ran && (!allocator || was.Suit(Calls(p, VideoActive())) || camera.Starts()))
      && params == (if allocator && ran && !was.Suit(Calls(p, VideoActive())) && camera.open && camera.init
                    then p.Effective(VideoActive(), camera.size) else p)
      && (!allocator ==> heaps == was)
    }

    /** enableMsgType and disableMsgType for a set of messages that has the video frames in it or not. */
    method ChangeMessages(video: bool, enable: bool, camera: Camera, memory: Memory, again: Memory)
      requires Valid()
      modifies this
      ensures !allocator ==> fitted == old(fitted)
      ensures Valid() && allocator == old(allocator)
      ensures Mode() == (old(recordingEnabled), if video then enable else old(videoMessages))
      ensures Follows(old(heaps), old(running), old(params), camera)
    {
      var was := videoMessages;
      if video { videoMessages := enable; }
      if video && videoMessages != was && recordingEnabled { InitHeapLocked(camera, memory, again); }
    }

    method StartRecording(camera: Camera, memory: Memory, again: Memory)
      requires Valid()
      modifies this
      ensures !allocator ==> fitted == old(fitted)
      ensures Valid() && allocator == old(allocator) && Mode() == (true, old(videoMessages))
      ensures Follows(old(heaps), old(running), old(params), camera)
    {
      if !recordingEnabled {
        recordingEnabled := true;
        if videoMessages { InitHeapLocked(camera, memory, again); }
      }
    }

    method StopRecording(camera: Camera, memory: Memory, again: Memory)
      requires Valid()
      modifies this
      ensures !allocator ==> fitted == old(fitted)
      ensures Valid() && allocator == old(allocator) && Mode() == (false, old(videoMessages))
      ensures Follows(old(heaps), old(running), old(params), camera)
    {
      if recordingEnabled {
        recordingEnabled := false;
        if videoMessages { InitHeapLocked(camera, memory, again); }
      }
    }

    /** The parameters take effect if the formats are supported; a restarted preview replaces the
        active size by the one the camera has. */
    method SetParameters(p: Params, camera: Camera, memory: Memory, again: Memory) returns (ok: bool)
      requires Valid()
      modifies this
      ensures !allocator ==> fitted == old(fitted)
      ensures Valid() && allocator == old(allocator) && Mode() == old(Mode())
      ensures ok <==> p == old(params) || p.Supported()
      ensures !ok ==> params == old(params) && running == old(running) && heaps == old(heaps)
      ensures ok ==> Follows(old(heaps), old(running), p, camera)
      ensures ok && allocator && p != old(params) ==>
                heaps == Refit(Refit(old(heaps), Calls(p, VideoActive()), memory), Needs(), again)
    {
      if p == params { return true; }
      if p.previewFormat.Unsupported? { return false; }
      if !p.jpegPicture { return false; }
      if p.videoFormat.Unsupported? { return false; }
      params := p;
      InitHeapLocked(camera, memory, again);
      return true;
    }

    /** The heaps match exactly if what is called for is what they were last resized for. */
    lemma MatchesIff()
      requires Sound()
      ensures Matches() <==> fitted == Some(Needs())
    {
    }

    /** An allocator that arrives while the preview is running finds the heaps as they were left: that
        is well exactly if they have been resized before, nothing called for has changed since, and
        the camera delivers the active size. */
    method SetCallbacks(available: bool)
      requires Valid()
      modifies this`allocator
      ensures allocator == available && Sound()
      ensures Valid() <==> !available || !running || (fitted == Some(Needs()) && delivered == Active())
      ensures fitted.None? ==> (Valid() <==> !(available && running))
      ensures old(allocator) ==> Valid()
    {
      allocator := available;
      MatchesIff();
    }

    /** pictureThread: a picture ends the preview, and its frame fits the picture heap it is grabbed
        into.  The compressed picture, of `fileSize` bytes if there is one and room for it, replaces
        the JPEG heap by one of its own size, which nothing but the callback uses. */
    method TakePicture(camera: Camera, memory: Memory, fileSize: Option<nat>, room: bool)
      returns (taken: bool, grabbed: int)
      requires Valid()
      modifies this
      ensures !allocator ==> fitted == old(fitted)
      ensures Valid() && !running && allocator == old(allocator) && Mode() == old(Mode())
      ensures taken == camera.open
      ensures params == if taken then old(params).(picture := camera.size) else old(params)
      ensures !taken ==> heaps == old(heaps)
      ensures taken && allocator ==>
                Matches() && heaps == Refit(old(heaps), Needs(), memory).(jpeg := heaps.jpeg)
      ensures taken && allocator ==> grabbed == heaps.picture.frame
      ensures taken && allocator && heaps.picture.buffer.Some? ==> grabbed == heaps.picture.buffer.value
      ensures taken && fileSize.Some? ==> heaps.jpeg.buffer == if room then fileSize else None
    {
      grabbed := 0;
      if running { StopPreviewLocked(); }
      taken := camera.open;
      if !taken { return; }
      params := params.(picture := camera.size);
      InitHeapLocked(camera, memory, memory);
      grabbed := camera.size.w * camera.size.h * 2;
      if fileSize.Some? {
        var compressed := Allocate(fileSize.value, room);
        heaps := heaps.(jpeg := heaps.jpeg.(buffer := compressed.buffer));
      }
    }

    // ---------------------------------------------------------------- one frame

    ghost predicate Inside(a: Access)
      reads this
    {
      var b := if a.buffer.RawFrame? then heaps.raw.buffer else if a.buffer.PreviewFrame? then heaps.preview.buffer else heaps.rec.buffer;
      b.Some? && a.from >= 0 && a.len >= 0 && a.from + a.len <= b.value
    }

    /** A YUYV preview needs no copy unless the recording has another frame size. */
    ghost function Base(): FrameBuffer
      reads this
    {
      if heaps.previewFmt.Yuyv? && (recordingEnabled ==> heaps.raw.frame == heaps.preview.frame) then PreviewFrame else RawFrame
    }

    /** One turn of the preview thread: the parts of the buffers it touches, the grabbed frame
        first.  A YUYV preview of another frame size than the recording gets the rows of their common
        corner.  The converters of the planar formats are not part of this. */
    method PreviewThread(previewMessages: bool) returns (touched: seq<Access>)
      requires Valid() && running
      ensures allocator ==> forall a :: a in touched ==> Inside(a)
      ensures touched == [] <==> heaps.raw.buffer.None? || heaps.preview.buffer.None?
      ensures allocator && touched != [] ==> touched[0] == Access(Base(), 0, YuyvBytes(delivered))
      ensures VideoActive() && heaps.recFmt.Yuyv? && heaps.rec.buffer.Some? && touched != [] ==>
                Access(Base(), 0, heaps.rec.frame) in touched && Access(RecordingFrame, 0, heaps.rec.frame) in touched
      ensures touched != [] && previewMessages && heaps.previewFmt.Yuyv? && Base().RawFrame? ==>
                Copied(touched, Size(Min(params.preview.w, heaps.rawSize.w), Min(params.preview.h, heaps.rawSize.h)),
                       heaps.rawSize, params.preview)
    {
      touched := [];
      if heaps.raw.buffer.None? || heaps.preview.buffer.None? { return; }
      var zeroCopy := heaps.previewFmt.Yuyv? && (!recordingEnabled || heaps.raw.frame == heaps.preview.frame);
      var base := if zeroCopy then PreviewFrame else RawFrame;
      touched := [Access(base, 0, heaps.raw.frame)];
      if recordingEnabled && videoMessages && heaps.rec.buffer.Some? && heaps.recFmt.Yuyv? {
        touched := touched + [Access(base, 0, heaps.rec.frame), Access(RecordingFrame, 0, heaps.rec.frame)];
      }
      if previewMessages && heaps.previewFmt.Yuyv? && recordingEnabled && heaps.raw.frame != heaps.preview.frame {
        var width, height := params.preview.w, params.preview.h;
        var cwidth := if width > heaps.rawSize.w then heaps.rawSize.w else width;
        var cheight := if height > heaps.rawSize.h then heaps.rawSize.h else height;
        ghost var upToHere := touched;
        var h, dst, src := 0, 0, 0;
        while h < cheight
          invariant 0 <= h && dst == h * (width * 2) && src == h * (heaps.rawSize.w * 2)
          invariant allocator ==> forall a :: a in touched ==> Inside(a)
          invariant |touched| >= |upToHere| && touched[0] == upToHere[0]
          invariant forall a :: a in upToHere ==> a in touched
          invariant Copied(touched, Size(cwidth, h), heaps.rawSize, params.preview)
        {
          ghost var before := touched;
          if allocator {
            RowInside(params.preview, h, cwidth);
            RowInside(heaps.rawSize, h, cwidth);
          }
          touched := touched + [Access(base, src, cwidth * 2), Access(PreviewFrame, dst, cwidth * 2)];
          CopiedNext(before, Size(cwidth, h), heaps.rawSize, params.preview, touched);
          h, dst, src := h + 1, dst + width * 2, src + heaps.rawSize.w * 2;
        }
      }
    }
  }

  function Min(a: int, b: int): int { if a < b then a else b }

  /** Row `r`, as far as `n` pixels, of a frame of size `s`. */
  function Row(b: FrameBuffer, s: Size, r: int, n: int): Access {
    Access(b, r * (s.w * 2), n * 2)
  }

  /** Every row of `corner` is taken from the raw frame and put into the preview frame. */
  ghost predicate Copied(touched: seq<Access>, corner: Size, raw: Size, preview: Size) {
    forall r: nat :: r < corner.h ==>
      Row(RawFrame, raw, r, corner.w) in touched && Row(PreviewFrame, preview, r, corner.w) in touched
  }

  lemma CopiedNext(before: seq<Access>, corner: Size, raw: Size, preview: Size, touched: seq<Access>)
    requires corner.h >= 0 && Copied(before, corner, raw, preview)
    requires touched == before + [Row(RawFrame, raw, corner.h, corner.w), Row(PreviewFrame, preview, corner.h, corner.w)]
    ensures Copied(touched, Size(corner.w, corner.h + 1), raw, preview)
  {
    assert Row(RawFrame, raw, corner.h, corner.w) == touched[|before|]
      && Row(PreviewFrame, preview, corner.h, corner.w) == touched[|before| + 1];
    forall r: nat | r < corner.h
      ensures Row(RawFrame, raw, r, corner.w) in touched && Row(PreviewFrame, preview, r, corner.w) in touched
    {
      assert Row(RawFrame, raw, r, corner.w) in before;
    }
  }

  /** A preview started before there is an allocator is left with heaps that do not match as soon as
      one arrives. */
  method LateAllocator(defaults: Params, camera: Camera, memory: Memory) returns (c: CameraHardware)
    requires defaults.Supported() && camera.Starts()
    ensures c.allocator && c.running && !c.Matches() && !c.Valid()
  {
    c := new CameraHardware(defaults);
    var started := c.StartPreview(camera, memory);
    c.SetCallbacks(true);
    c.MatchesIff();
  }

  /** So is a preview whose format changes while the allocator is away. */
  method AllocatorAway(defaults: Params, other: Params, camera: Camera, memory: Memory) returns (c: CameraHardware)
    requires defaults.Supported() && other.Supported() && defaults.previewFormat != other.previewFormat
    requires camera.Starts()
    ensures c.allocator && c.running && !c.Matches() && !c.Valid()
  {
    c := new CameraHardware(defaults);
    c.SetCallbacks(true);
    var started := c.StartPreview(camera, memory);
    c.MatchesIff();
    assert c.fitted.value.previewFormat == defaults.previewFormat;
    c.SetCallbacks(false);
    ghost var fitted := c.fitted;
    var ok := c.SetParameters(other, camera, memory, memory);
    assert c.fitted == fitted && c.running && c.Needs().previewFormat == other.previewFormat;
    c.SetCallbacks(true);
    c.MatchesIff();
  }

  /** Another preview size on a running camera: the preview is stopped, everything it uses is resized,
      and it runs again with the size that the camera has. */
  method ResizeWhileRunning(c: CameraHardware, s: Size, camera: Camera, memory: Memory, again: Memory)
    requires c.Valid() && c.allocator && c.running && !c.VideoActive() && c.params.preview != s
    requires camera.Starts()
    modifies c
    ensures c.running && c.delivered == c.heaps.rawSize == c.params.preview == camera.size
    ensures memory.Enough() && again.Enough() && old(c.heaps.Filled()) ==> c.heaps.Filled()
  {
    var ok := c.SetParameters(c.params.(preview := s), camera, memory, again);
  }

  /** A row of at most the width of a frame that has any bytes lies inside the frame. */
  lemma RowInside(s: Size, r: nat, n: int)
    requires YuyvBytes(s) >= 0 && r < s.h && n <= s.w
    ensures s.w >= 0 && 0 <= r * (s.w * 2) && r * (s.w * 2) + n * 2 <= YuyvBytes(s)
  {
    WidthOf(s.w, s.h);
    var rest := s.h - 1 - r;
    NonNegative(rest, s.w);
    NonNegative(r, s.w);
    assert s.w * s.h == r * s.w + s.w + rest * s.w by {
      assert s.h == r + 1 + rest;
      assert s.w * (r + 1 + rest) == s.w * r + s.w + s.w * rest;
    }
    assert r * (s.w * 2) == 2 * (r * s.w);
  }

  lemma WidthOf(w: int, h: nat)
    requires h > 0 && w * h >= 0
    ensures w >= 0
  {
  }

  lemma NonNegative(a: nat, b: nat)
    ensures a * b >= 0
  {
  }

  datatype FrameBuffer = RawFrame | PreviewFrame | RecordingFrame

  datatype Access = Access(buffer: FrameBuffer, from: int, len: int)

  // ------------------------------------------------------------------ what the row copy does

  /** A frame with the bytes of its size has all its rows, and any narrower ones. */
  lemma FrameHasRows(s: Size, n: nat, count: nat)
    requires n <= s.w && count <= s.h
    ensures HasRows(YuyvBytes(s), 0, s.w * 2, n * 2, count)
  {
    forall r: nat | r < count ensures Start(0, s.w * 2, r) + n * 2 <= YuyvBytes(s) {
      StartIs(0, s.w * 2, r);
      RowInside(s, r, n);
    }
  }

  /** The copy of the recorded picture into a preview frame of another size: the common corner comes
      from the recording, every other byte of the frame is kept. */
  method CopyPreview(frame: array<byte>, preview: Size, base: array<byte>, raw: Size)
    requires frame != base && preview.w >= 0 && preview.h >= 0 && raw.w >= 0 && raw.h >= 0
    requires frame.Length >= YuyvBytes(preview) && base.Length >= YuyvBytes(raw)
    modifies frame
    ensures var cwidth, cheight := Least(preview.w, raw.w), Least(preview.h, raw.h);
            Laid(frame[..], old(frame[..]), preview.w * 2, base[..], 0, raw.w * 2, cwidth * 2, cheight)
  {
    var cwidth := if preview.w > raw.w then raw.w else preview.w;
    var cheight := if preview.h > raw.h then raw.h else preview.h;
    FrameHasRows(preview, cwidth, cheight);
    FrameHasRows(raw, cwidth, cheight);
    CopyRows(frame, preview.w * 2, base, 0, raw.w * 2, cwidth * 2, cheight);
  }

  function Least(a: nat, b: nat): nat { if a < b then a else b }

  /** The copy is skipped while recording if the two frames have the same number of bytes.  That
      leaves the rows of the preview where they belong exactly if the widths are the same. */
  lemma SkippedCopyKeepsRowsIff(preview: Size, video: Size)
    requires preview.w > 0 && video.w > 0 && preview.h > 1 && video.h > 1
    requires YuyvBytes(preview) == YuyvBytes(video)
    ensures (forall row: nat :: row < preview.h && row < video.h ==> RowStart(preview, row) == RowStart(video, row))
            <==> preview == video
  {
    if preview.w == video.w { assert preview.w * (preview.h - video.h) == 0; }
    assert RowStart(preview, 1) == preview.w * 2 && RowStart(video, 1) == video.w * 2;
  }

  function RowStart(s: Size, row: nat): int { row * (s.w * 2) }

  // ------------------------------------------------------------------ the preview window

  /** The width shown when a picture of width `src` is centred in a window of width `win`. */
  function ShownWidth(win: nat, src: nat): int {
    var start := (win - src) / 2;
    if start < 0 then src + start else src
  }

  /** The crop takes off half of what is too much: the picture fits its window exactly if it was at
      most one pixel too wide. */
  lemma ShownFitsIff(win: nat, src: nat)
    ensures ShownWidth(win, src) <= win <==> src <= win + 1
    ensures src > win ==> ShownWidth(win, src) == win + (src - win) / 2
  {
  }
}
