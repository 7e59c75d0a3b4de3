/** Microphone capture: a period buffer that has to look like one continuous mono stream. */
module Capture {
  import opened Common

  /** One answer of pcm_read: a period of interleaved samples, or an error code. */
  datatype Read = Period(samples: seq<int>) | Failed(code: int)

  const NO_DEVICE: int := -19
  const IO_ERROR: int := -5

  // ------------------------------------------------------------------ what the device delivers

  /** The device's settings: channels, frames a period, and the samples a period holds. */
  datatype Config = Config(channels: nat, period: nat, samples: nat) {
    ghost predicate Sound() {
      channels > 0 && period <= samples && (channels == 2 ==> samples == 2 * period)
    }
  }

  function Interleaved(channels: nat, period: nat): Config {
    Config(channels, period, period * channels)
  }

  lemma InterleavedSound(channels: nat, period: nat)
    requires channels > 0
    ensures Interleaved(channels, period).Sound()
  {
    MulAtLeast(period, channels);
  }

  lemma MulAtLeast(a: nat, b: nat)
    requires b > 0
    ensures a * b >= a
  {
  }

  /** The frames kept of one period: the left samples of a stereo period, otherwise the first
      samples as they come. */
  function Kept(samples: seq<int>, c: Config): (k: seq<int>)
    requires c.Sound() && |samples| == c.samples
  {
    if c.channels == 2 then seq(c.period, i requires 0 <= i < c.period => Left(samples, i)) else samples[..c.period]
  }

  /** The left sample of frame `j` of a stereo period. */
  function Left(samples: seq<int>, j: nat): int
    requires 2 * j < |samples|
  {
    samples[2 * j]
  }

  /** The first channel of an interleaved period. */
  function FirstChannel(samples: seq<int>, channels: nat, period: nat): seq<int>
    requires channels > 0 && |samples| == period * channels
  {
    seq(period, i requires 0 <= i < period => (Below(i, period, channels); samples[i * channels]))
  }

  lemma Below(i: nat, period: nat, channels: nat)
    requires i < period && channels > 0
    ensures i * channels < period * channels
  {
  }

  predicate Sized(rs: seq<Read>, c: Config) {
    forall r :: r in rs && r.Period? ==> |r.samples| == c.samples
  }

  /** The frames up to the first failed read. */
  function Delivered(rs: seq<Read>, c: Config): seq<int>
    requires c.Sound() && Sized(rs, c)
  {
    if rs == [] || rs[0].Failed? then [] else Kept(rs[0].samples, c) + Delivered(rs[1..], c)
  }

  /** What the device still has to give after its next error. */
  function AfterError(rs: seq<Read>): seq<Read> {
    if rs == [] then [] else if rs[0].Failed? then rs[1..] else AfterError(rs[1..])
  }

  /** Keeping the first samples is keeping the first channel exactly for mono and stereo devices,
      or periods of at most one frame. */
  lemma KeptIsFirstChannelIff(channels: nat, period: nat)
    requires channels > 0
    ensures Interleaved(channels, period).Sound()
    ensures (forall s: seq<int> :: |s| == period * channels ==>
               Kept(s, Interleaved(channels, period)) == FirstChannel(s, channels, period))
            <==> channels <= 2 || period <= 1
  {
    InterleavedSound(channels, period);
    var c := Interleaved(channels, period);
    if channels <= 2 || period <= 1 {
      forall s: seq<int> | |s| == period * channels
        ensures Kept(s, c) == FirstChannel(s, channels, period)
      {
        assert forall i :: 0 <= i < period && channels == 1 ==> i * channels == i;
        assert forall i :: 0 <= i < period && channels == 2 ==> i * channels == 2 * i;
      }
    } else {
      var s := seq(period * channels, i => i);
      Below(1, period, channels);
      assert Kept(s, c)[1] == 1 != FirstChannel(s, channels, period)[1];
    }
  }

  // ------------------------------------------------------------------ the stream object

  class AudioStreamIn {
    const config: Config
    const buffer: array<int>      // one period, interleaved
    var isOpen: bool
    var framesIn: nat             // frames of the period not handed out yet
    var readStatus: int
    var device: seq<Read>         // the answers pcm_read will give

    ghost predicate Valid()
      reads this, buffer
    {
      && config.Sound() && config.period > 0 && buffer.Length == config.samples
      && framesIn <= config.period
      && Sized(device, config)
      && (forall r :: r in device && r.Failed? ==> r.code != 0)
    }

    /** The stream as a reader will see it: what is buffered, then what the device will give. */
    ghost function Upcoming(): seq<int>
      requires Valid()
      reads this, buffer
    {
      if isOpen then buffer[..config.period][config.period - framesIn..] + Delivered(device, config) else []
    }

    constructor (channels: nat, period: nat, device: seq<Read>)
      requires channels > 0 && period > 0 && Sized(device, Interleaved(channels, period))
      requires forall r :: r in device && r.Failed? ==> r.code != 0
      ensures config == Interleaved(channels, period)
      ensures Valid() && fresh(buffer) && isOpen && framesIn == 0
      ensures Upcoming() == Delivered(device, config)
    {
      config := Interleaved(channels, period);
      buffer := new int[period * channels];
      InterleavedSound(channels, period);
      isOpen, framesIn, readStatus, this.device := true, 0, 0, device;
    }

    /** The stereo fold, in place: each frame moves down to the slot of its index. */
    method Fold()
      requires buffer.Length == 2 * config.period
      modifies buffer
      ensures forall i :: 0 <= i < config.period ==> buffer[i] == Left(old(buffer[..]), i)
    {
      ghost var stereo := buffer[..];
      var i := 1;
      while i < config.period
        invariant 1 <= i && (i <= config.period || config.period == 0)
        invariant forall j :: 0 <= j < i && j < config.period ==> buffer[j] == Left(stereo, j)
        invariant forall k :: i <= k < buffer.Length ==> buffer[k] == stereo[k]
      {
        assert buffer[i * 2] == Left(stereo, i);
        buffer[i] := buffer[i * 2];
        i := i + 1;
      }
    }

    /** pcm_read into the period buffer. */
    method Fill() returns (status: int)
      requires Valid() && isOpen && framesIn == 0
      modifies this`device, buffer
      ensures device == if old(device) == [] then [] else old(device)[1..]
      ensures status == 0 <==> old(device) != [] && old(device)[0].Period?
      ensures status == 0 ==> buffer[..] == old(device)[0].samples
    {
      if device == [] { return IO_ERROR; }
      var r := device[0];
      assert r in device;
      device := device[1..];
      if r.Failed? { return r.code; }
      forall i | 0 <= i < buffer.Length { buffer[i] := r.samples[i]; }
      return 0;
    }

    /** The last read succeeded if frames of it are left; a closed stream may hold frames too, which
        nothing hands out. */
    predicate Ready()
      reads this
    {
      isOpen && framesIn > 0 ==> readStatus == 0
    }

    /** getNextBuffer: up to `wanted` frames of the current period, reading the next one first if
        none are left.  On an error nothing is handed out. */
    method GetNextBuffer(wanted: nat) returns (at: nat, count: nat)
      requires Valid() && Ready()
      modifies this`device, this`framesIn, this`readStatus, buffer
      ensures Valid() && Ready() && isOpen == old(isOpen)
      ensures readStatus == 0 ==>
                && isOpen && count <= wanted && count <= framesIn && at + framesIn == config.period
                && (wanted > 0 ==> count > 0)
                && Upcoming() == old(Upcoming())
      ensures readStatus != 0 ==> count == 0 && old(Upcoming()) == [] && (isOpen ==> framesIn == 0)
      ensures isOpen ==> (if readStatus == 0 then AfterError(device) else device) == AfterError(old(device))
    {
      if !isOpen {
        at, count, readStatus := 0, 0, NO_DEVICE;
        return;
      }
      if framesIn == 0 {
        ghost var before := device;
        readStatus := Fill();
        assert Sized(device, config) && forall r :: r in device ==> r in before;
        if readStatus != 0 {
          at, count := 0, 0;
          return;
        }
        if config.channels == 2 { Fold(); }
        framesIn := config.period;
        assert buffer[..config.period] == Kept(before[0].samples, config);
      }
      at := config.period - framesIn;
      count := if wanted > framesIn then framesIn else wanted;
    }

    /** The next `count` frames of the period. */
    ghost function Front(count: nat): seq<int>
      requires Valid() && count <= framesIn
      reads this, buffer
    {
      buffer[config.period - framesIn..config.period - framesIn + count]
    }

    /** releaseBuffer: the frames handed out leave the stream. */
    method ReleaseBuffer(count: nat)
      requires Valid() && isOpen && count <= framesIn
      modifies this`framesIn
      ensures Valid() && framesIn == old(framesIn) - count
      ensures old(Upcoming()) == old(Front(count)) + Upcoming()
    {
      ghost var kept, at := buffer[..config.period], config.period - framesIn;
      ghost var piece := buffer[at..at + count];
      Cut(kept, at, at + count);
      Assoc(kept[at..at + count], kept[at + count..], Delivered(device, config));
      assert piece == kept[at..at + count];
      framesIn := framesIn - count;
    }

    /** One turn of readFrames_l: hand out a piece of the period and release it. */
    method NextPiece(wanted: nat) returns (piece: seq<int>)
      requires Valid() && Ready() && wanted > 0
      modifies this`device, this`framesIn, this`readStatus, buffer
      ensures Valid() && isOpen == old(isOpen) && Ready()
      ensures readStatus == 0 ==> 0 < |piece| <= wanted && old(Upcoming()) == piece + Upcoming()
      ensures readStatus != 0 ==> old(Upcoming()) == [] && (isOpen ==> framesIn == 0)
      ensures isOpen ==> (if readStatus == 0 then AfterError(device) else device) == AfterError(old(device))
    {
      var at, count := GetNextBuffer(wanted);
      piece := [];
      if readStatus == 0 {
        piece := buffer[at..at + count];
        assert piece == Front(count);
        ReleaseBuffer(count);
      }
    }

    /** readFrames_l without a resampler.  It succeeds exactly if the device delivers that many
        frames before its next error; then it returns the next frames of the stream and leaves
        the rest.  On an error all frames before it are gone. */
    method ReadFrames(frames: nat) returns (status: int, out: seq<int>)
      requires Valid() && Ready()
      modifies this`device, this`framesIn, this`readStatus, buffer
      ensures Valid() && isOpen == old(isOpen) && Ready()
      ensures status == 0 <==> frames <= |old(Upcoming())|
      ensures status == 0 ==> |out| == frames && old(Upcoming()) == out + Upcoming()
      ensures status != 0 && isOpen ==> framesIn == 0 && device == AfterError(old(device))
    {
      out := [];
      assert Upcoming() == out + Upcoming();
      while |out| < frames
        invariant Valid() && isOpen == old(isOpen) && Ready()
        invariant |out| <= frames && old(Upcoming()) == out + Upcoming()
        invariant isOpen ==> AfterError(device) == AfterError(old(device))
        decreases frames - |out|
      {
        var piece := NextPiece(frames - |out|);
        if readStatus != 0 {
          return readStatus, out;
        }
        Assoc(out, piece, Upcoming());
        out := out + piece;
      }
      status := 0;
    }

    /** Successive reads of one session: what they return is one prefix of the stream, nothing
        lost, nothing repeated, nothing reordered. */
    method Session(requests: seq<nat>) returns (done: nat, all: seq<int>)
      requires Valid() && Ready()
      modifies this`device, this`framesIn, this`readStatus, buffer
      ensures done <= |requests| && all <= old(Upcoming()) && |all| == Total(requests[..done])
      ensures done < |requests| ==> Total(requests[..done + 1]) > |old(Upcoming())|
    {
      done, all := 0, [];
      ghost var stream, ahead := Upcoming(), Upcoming();
      while done < |requests|
        invariant Valid() && Ready() && ahead == Upcoming()
        invariant done <= |requests| && |all| == Total(requests[..done])
        invariant stream == all + ahead
      {
        TotalNext(requests, done);
        var status, out := ReadFrames(requests[done]);
        if status != 0 { return; }
        Assoc(all, out, Upcoming());
        all, ahead := all + out, Upcoming();
        done := done + 1;
      }
    }
  }

  lemma Cut(s: seq<int>, a: nat, b: nat)
    requires a <= b <= |s|
    ensures s[a..] == s[a..b] + s[b..]
  {
  }

  function Total(requests: seq<nat>): nat {
    if requests == [] then 0 else Total(requests[..|requests| - 1]) + requests[|requests| - 1]
  }

  lemma TotalNext(requests: seq<nat>, k: nat)
    requires k < |requests|
    ensures Total(requests[..k + 1]) == Total(requests[..k]) + requests[k]
  {
    assert requests[..k + 1][..k] == requests[..k];
  }
}
