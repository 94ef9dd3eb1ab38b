/**
  The buffering around the noise suppressor: 8 kHz in, 48 kHz through a network that works on
  whole frames, 8 kHz out, the same length on every call.

  The network is a black box: what it gives for a frame may depend on everything it was fed up
  to the end of that frame.
*/
module Denoiser {
  import opened Audio

  /** Samples of one network frame, and how many of them stand for one sample of the call. */
  const FRAME: nat := 480
  const UP: nat := 6
  /** A network frame in samples of the call. */
  const HOP: nat := 80

  datatype Network = Network(
    clean: seq<real> -> seq<real>,
    voice: seq<real> -> real,
    decode: Byte -> real,
    encode: real -> Byte)
  {
    ghost predicate Valid() {
      forall x {:trigger clean(x)} :: |clean(x)| == FRAME
    }
  }

  // ---------------------------------------------------------------------------------------
  // The whole call at once
  // ---------------------------------------------------------------------------------------

  function LastOf(net: Network, heard: seq<Byte>): real {
    if heard == [] then 0.0 else net.decode(heard[|heard| - 1])
  }

  /** The straight line between two samples, at 48 kHz. */
  function Ramp(from: real, to: real): (r: seq<real>)
    ensures |r| == UP
  {
    var d := to - from;
    [from + d / 6.0, from + 2.0 * d / 6.0, from + 3.0 * d / 6.0, from + 4.0 * d / 6.0, from + 5.0 * d / 6.0, to]
  }

  /** The call brought up to 48 kHz. */
  function Upsampled(net: Network, heard: seq<Byte>): (r: seq<real>)
    ensures |r| == UP * |heard|
  {
    if heard == [] then []
    else
      var front := heard[..|heard| - 1];
      Upsampled(net, front) + Ramp(LastOf(net, front), net.decode(heard[|heard| - 1]))
  }

  /** What the first `k` network frames of `stream` give; silence takes the place of the first. */
  function Cleaned(net: Network, stream: seq<real>, k: nat): seq<real>
    requires k * FRAME <= |stream|
  {
    if k == 0 then []
    else Cleaned(net, stream, k - 1) + if k == 1 then Repeat(0.0, FRAME) else net.clean(stream[..k * FRAME])
  }

  function Sum(samples: seq<real>): real {
    if samples == [] then 0.0 else Sum(samples[..|samples| - 1]) + samples[|samples| - 1]
  }

  /** `n` samples of the call out of 48 kHz samples, each the mean of six. */
  function Downsampled(net: Network, samples: seq<real>, n: nat): (r: seq<Byte>)
    requires n * UP <= |samples|
    ensures |r| == n
  {
    if n == 0 then []
    else Downsampled(net, samples, n - 1) + [net.encode(Sum(samples[(n - 1) * UP..n * UP]) / 6.0)]
  }

  /** The surest voice of the network frames `from` to `upto`. */
  function Surest(net: Network, stream: seq<real>, from: nat, upto: nat): (r: real)
    requires from <= upto && upto * FRAME <= |stream|
    decreases upto
  {
    if from == upto then 0.0
    else
      var before, last := Surest(net, stream, from, upto - 1), net.voice(stream[..upto * FRAME]);
      if before < last then last else before
  }

  lemma {:induction false} CleanedLength(net: Network, stream: seq<real>, k: nat)
    requires net.Valid() && k * FRAME <= |stream|
    ensures |Cleaned(net, stream, k)| == k * FRAME
  {
    if k > 0 {
      CleanedLength(net, stream, k - 1);
    }
  }

  /** More of the call changes nothing the network already gave. */
  lemma {:induction false} CleanedExtends(net: Network, stream: seq<real>, more: seq<real>, k: nat)
    requires k * FRAME <= |stream|
    ensures Cleaned(net, stream + more, k) == Cleaned(net, stream, k)
  {
    if k > 0 {
      CleanedExtends(net, stream, more, k - 1);
      assert (stream + more)[..k * FRAME] == stream[..k * FRAME];
    }
  }

  lemma UpsampledOne(net: Network, heard: seq<Byte>, b: Byte)
    ensures Upsampled(net, heard + [b]) == Upsampled(net, heard) + Ramp(LastOf(net, heard), net.decode(b))
    ensures LastOf(net, heard + [b]) == net.decode(b)
  {
    assert (heard + [b])[..|heard|] == heard;
  }

  lemma {:induction false} SurestExtends(net: Network, stream: seq<real>, more: seq<real>, from: nat, upto: nat)
    requires from <= upto && upto * FRAME <= |stream|
    ensures Surest(net, stream + more, from, upto) == Surest(net, stream, from, upto)
    decreases upto
  {
    if from < upto {
      SurestExtends(net, stream, more, from, upto - 1);
      assert (stream + more)[..upto * FRAME] == stream[..upto * FRAME];
    }
  }

  lemma {:induction false} DownsampledSplit(net: Network, samples: seq<real>, a: nat, b: nat)
    requires (a + b) * UP <= |samples|
    ensures Downsampled(net, samples, a + b) == Downsampled(net, samples, a) + Downsampled(net, samples[a * UP..], b)
  {
    if b > 0 {
      DownsampledSplit(net, samples, a, b - 1);
      assert samples[a * UP..][(b - 1) * UP..b * UP] == samples[(a + b - 1) * UP..(a + b) * UP];
    }
  }

  lemma {:induction false} DownsampledExtends(net: Network, samples: seq<real>, more: seq<real>, n: nat)
    requires n * UP <= |samples|
    ensures Downsampled(net, samples + more, n) == Downsampled(net, samples, n)
  {
    if n > 0 {
      DownsampledExtends(net, samples, more, n - 1);
      assert (samples + more)[(n - 1) * UP..n * UP] == samples[(n - 1) * UP..n * UP];
    }
  }

  // ---------------------------------------------------------------------------------------
  // The buffers
  // ---------------------------------------------------------------------------------------

  function Min(x: nat, y: nat): nat {
    if x < y then x else y
  }

  /** `spoken` is the start of what was cleaned, brought down, and `ready` is the rest of it. */
  ghost predicate Split(net: Network, cleaned: seq<real>, spoken: seq<Byte>, ready: seq<real>) {
    && |spoken| * UP <= |cleaned|
    && spoken == Downsampled(net, cleaned, |spoken|)
    && ready == cleaned[|spoken| * UP..]
  }

  lemma SplitGrows(net: Network, cleaned: seq<real>, spoken: seq<Byte>, ready: seq<real>, more: seq<real>)
    requires Split(net, cleaned, spoken, ready)
    ensures Split(net, cleaned + more, spoken, ready + more)
  {
    DownsampledExtends(net, cleaned, more, |spoken|);
  }

  lemma SplitMoves(net: Network, cleaned: seq<real>, spoken: seq<Byte>, ready: seq<real>, n: nat)
    requires Split(net, cleaned, spoken, ready) && n * UP <= |ready|
    ensures Split(net, cleaned, spoken + Downsampled(net, ready, n), ready[n * UP..])
  {
    var m := |spoken|;
    assert (m + n) * UP == m * UP + n * UP;
    DownsampledSplit(net, cleaned, m, n);
    assert ready[n * UP..] == cleaned[(m + n) * UP..];
  }

  lemma SplitStep(net: Network, fed: seq<real>, input: seq<real>, k: nat, spoken: seq<Byte>, ready: seq<real>)
    requires net.Valid() && |fed| == k * FRAME && |input| == FRAME && Split(net, Cleaned(net, fed, k), spoken, ready)
    ensures var out := if k > 0 then net.clean(fed + input) else Repeat(0.0, FRAME);
      Split(net, Cleaned(net, fed + input, k + 1), spoken, ready + out)
  {
    var out := if k > 0 then net.clean(fed + input) else Repeat(0.0, FRAME);
    CleanedExtends(net, fed, input, k);
    assert (fed + input)[..(k + 1) * FRAME] == fed + input;
    assert Cleaned(net, fed + input, k + 1) == Cleaned(net, fed, k) + out;
    SplitGrows(net, Cleaned(net, fed, k), spoken, ready, out);
  }

  /** What the network gave has been brought down or is ready to be. */
  ghost predicate Flow(net: Network, fed: seq<real>, frames: nat, warmed: bool, spoken: seq<Byte>, ready: seq<real>) {
    && net.Valid()
    && |fed| == frames * FRAME
    && warmed == (frames > 0)
    && |spoken| <= frames * HOP
    && Split(net, Cleaned(net, fed, frames), spoken, ready)
  }

  /** One more network frame. */
  lemma {:induction false} FlowsOn(net: Network, fed: seq<real>, input: seq<real>, frames: nat, warmed: bool, spoken: seq<Byte>, ready: seq<real>)
    requires Flow(net, fed, frames, warmed, spoken, ready) && |input| == FRAME
    ensures var out := if warmed then net.clean(fed + input) else Repeat(0.0, FRAME);
      Flow(net, fed + input, frames + 1, true, spoken, ready + out)
  {
    SplitStep(net, fed, input, frames, spoken, ready);
  }

  /** The silence put in so far is always less than a network frame. */
  lemma InsertedStaysSmall(heard: nat, frames: nat, pending: nat, spoken: nat, inserted: nat, wanted: nat, taken: nat)
    requires frames * FRAME + pending == UP * heard && pending < FRAME
    requires spoken + inserted + wanted == heard && inserted < HOP && spoken <= frames * HOP
    requires taken == Min(wanted, frames * HOP - spoken)
    ensures inserted + wanted - taken < HOP && heard - frames * HOP <= inserted + wanted - taken
  {
  }

  lemma Rejoined(fed: seq<real>, pending: seq<real>, n: nat)
    requires n <= |pending|
    ensures fed + pending[..n] + pending[n..] == fed + pending
  {
  }

  class Buffers {
    const net: Network
    /** Where the ramp to the next sample begins. */
    var last: real
    /** Upsampled input, short of `FRAME` samples between calls. */
    var pending: seq<real>
    /** Output of the network that still has to be averaged. */
    var ready: seq<real>
    var warmed: bool
    /** What the network has been fed: all its memory can hold. */
    var fed: seq<real>
    /** Everything heard, the network frames done, the samples that came out of them, and the
        silence put in to keep the length. */
    ghost var heard: seq<Byte>
    ghost var frames: nat
    ghost var spoken: seq<Byte>
    ghost var inserted: nat

    /** What was heard has been fed to the network or waits for a whole frame. */
    ghost predicate Fed()
      reads `last, `fed, `pending, `heard
    {
      last == LastOf(net, heard) && fed + pending == Upsampled(net, heard)
    }

    ghost predicate Flowing()
      reads `fed, `frames, `warmed, `spoken, `ready
    {
      Flow(net, fed, frames, warmed, spoken, ready)
    }

    ghost predicate Valid()
      reads this
    {
      && Fed() && Flowing()
      && |pending| < FRAME
      && |spoken| + inserted == |heard|
      && inserted < HOP
      && |heard| - frames * HOP <= inserted
    }

    constructor (n: Network)
      requires n.Valid()
      ensures Valid() && net == n && heard == [] && inserted == 0
    {
      net := n;
      last, pending, ready, warmed, fed := 0.0, [], [], false, [];
      heard, frames, spoken, inserted := [], 0, [], 0;
    }

    /** The steps of one new sample, at 48 kHz. */
    method FeedOne(b: Byte)
      requires Fed()
      modifies this`last, this`pending, this`heard
      ensures Fed() && heard == old(heard) + [b]
    {
      var s := net.decode(b);
      UpsampledOne(net, heard, b);
      pending := pending + Ramp(last, s);
      assert fed + pending == fed + old(pending) + Ramp(last, s);
      heard := heard + [b];
      last := s;
    }

    method Feed(frame: seq<Byte>)
      requires Fed()
      modifies this`last, this`pending, this`heard
      ensures Fed() && heard == old(heard) + frame
    {
      for i := 0 to |frame|
        invariant Fed() && heard == old(heard) + frame[..i]
      {
        FeedOne(frame[i]);
      }
    }

    /** One network frame. */
    method Process() returns (p: real)
      requires Fed() && Flowing() && |pending| >= FRAME
      modifies this`pending, this`ready, this`warmed, this`fed, this`frames
      ensures Fed() && Flowing() && frames == old(frames) + 1 && pending == old(pending)[FRAME..]
      ensures fed == old(fed) + old(pending)[..FRAME]
      ensures p == net.voice(fed)
    {
      var input := pending[..FRAME];
      FlowsOn(net, fed, input, frames, warmed, spoken, ready);
      Rejoined(fed, pending, FRAME);
      fed := fed + input;
      pending := pending[FRAME..];
      p := net.voice(fed);
      ready := ready + if warmed then net.clean(fed) else Repeat(0.0, FRAME);
      warmed := true;
      frames := frames + 1;
    }

    /** Every whole network frame. */
    method ProcessAll() returns (voice: real)
      requires Fed() && Flowing()
      modifies this`pending, this`ready, this`warmed, this`fed, this`frames
      ensures Fed() && Flowing() && |pending| < FRAME && old(frames) <= frames
      ensures voice == Surest(net, fed, old(frames), frames)
    {
      voice := 0.0;
      while |pending| >= FRAME
        invariant Fed() && Flowing() && old(frames) <= frames
        invariant voice == Surest(net, fed, old(frames), frames)
        decreases |pending|
      {
        SurestExtends(net, fed, pending[..FRAME], old(frames), frames);
        var p := Process();
        assert fed[..frames * FRAME] == fed;
        if voice < p {
          voice := p;
        }
      }
    }

    /** Up to `wanted` samples of the call, of what is ready. */
    method TakeReady(wanted: nat) returns (audio: seq<Byte>)
      requires Flowing()
      modifies this`ready, this`spoken
      ensures Flowing() && spoken == old(spoken) + audio
      ensures |audio| == Min(wanted, frames * HOP - |old(spoken)|)
    {
      CleanedLength(net, fed, frames);
      assert |ready| == UP * (frames * HOP - |spoken|);
      var n := Min(wanted, |ready| / UP);
      audio := Downsampled(net, ready, n);
      SplitMoves(net, Cleaned(net, fed, frames), spoken, ready, n);
      ready := ready[n * UP..];
      spoken := spoken + audio;
    }

    /** The frame upsampled, and every whole network frame of it processed. */
    method Absorb(frame: seq<Byte>) returns (voice: real)
      requires Fed() && Flowing()
      modifies this`last, this`pending, this`heard, this`ready, this`warmed, this`fed, this`frames
      ensures Fed() && Flowing() && |pending| < FRAME && heard == old(heard) + frame && old(frames) <= frames
      ensures voice == Surest(net, fed, old(frames), frames)
    {
      Feed(frame);
      voice := ProcessAll();
    }

    /** One frame in, as many bytes out. */
    method Push(frame: seq<Byte>) returns (audio: seq<Byte>, voice: real)
      requires Valid()
      modifies this
      ensures Valid() && heard == old(heard) + frame
      ensures |audio| == |frame|
      ensures old(inserted) <= inserted <= old(inserted) + |frame|
      ensures (var n := |frame| - (inserted - old(inserted));
        spoken == old(spoken) + audio[..n] && forall i :: n <= i < |frame| ==> audio[i] == SILENCE)
      ensures voice == Surest(net, fed, old(frames), frames)
    {
      voice := Absorb(frame);
      audio := Fill(|frame|);
      assert |fed| + |pending| == UP * |heard|;
      InsertedStaysSmall(|heard|, frames, |pending|, |old(spoken)|, old(inserted), |frame|, |spoken| - |old(spoken)|);
    }

    /** Exactly `wanted` samples: what is ready, then silence. */
    method Fill(wanted: nat) returns (audio: seq<Byte>)
      requires Flowing()
      modifies this`ready, this`spoken, this`inserted
      ensures Flowing() && |audio| == wanted
      ensures |spoken| == |old(spoken)| + Min(wanted, frames * HOP - |old(spoken)|)
      ensures inserted == old(inserted) + wanted - (|spoken| - |old(spoken)|)
      ensures spoken == old(spoken) + audio[..|spoken| - |old(spoken)|]
      ensures forall i :: |spoken| - |old(spoken)| <= i < wanted ==> audio[i] == SILENCE
    {
      var out := TakeReady(wanted);
      audio := out + Repeat(SILENCE, wanted - |out|);
      assert audio[..|out|] == out;
      inserted := inserted + wanted - |out|;
    }
  }
}
