/** The driver of src/main.c around the engine: a mono buffer is denoised in
    one call; an interleaved multi-channel buffer is split into channels,
    each channel is denoised by the same engine in turn, and the results are
    woven back into a zero-initialised buffer. */
module Channels {
  import opened Numerics
  import opened GateSpec
  import opened GateLemmas
  import opened NoiseReduce

  /** Sample `i` of channel `ch` sits at `i * c + ch`, inside the first
      `spc * c` samples. */
  lemma SlotBound(i: int, c: int, ch: int, spc: int)
    requires 0 <= i < spc && 0 <= ch < c
    ensures 0 <= i * c + ch < spc * c
  {
    assert spc * c - (i + 1) * c == (spc - i - 1) * c;
    assert 0 <= (spc - i - 1) * c;
  }

  /** The slot of sample `i` of channel `ch` gives back `i` and `ch`. */
  lemma SlotDivMod(i: int, c: int, ch: int)
    requires 0 <= ch < c
    ensures (i * c + ch) / c == i && (i * c + ch) % c == ch
  {
    DivModUnique(i * c + ch, c, i, ch);
  }

  /** The whole channels cover exactly the first `spc * c` samples. */
  lemma BelowSlots(k: int, c: int, spc: int)
    requires 0 <= k && 0 < c
    ensures k < spc * c <==> k / c < spc
  {
    var i, ch := k / c, k % c;
    assert k == i * c + ch;
    if i < spc {
      SlotBound(i, c, ch, spc);
    } else {
      assert k - spc * c == (i - spc) * c + ch;
      assert 0 <= (i - spc) * c;
    }
  }

  /** `samples_per_channel` (main.c:70): the truncating quotient, so the
      whole channels fit in the buffer and at most `c - 1` samples are left
      over. */
  function SamplesPerChannel(n: nat, c: nat): (spc: nat)
    requires 0 < c
    ensures spc * c <= n < spc * c + c
  {
    assert n == (n / c) * c + n % c;
    n / c
  }

  /** `channel_in`: sample `i` of channel `ch` of an interleaved buffer
      (main.c:85-87). */
  function ChannelOf(pcm: seq<real>, c: nat, ch: nat, spc: nat): (r: seq<real>)
    requires ch < c && spc * c <= |pcm|
    ensures |r| == spc
  {
    seq(spc, i requires 0 <= i < spc => SlotBound(i, c, ch, spc); pcm[i * c + ch])
  }

  /** `acc` with channel `ch` overwritten by `out` (main.c:101-103). */
  function Scatter(acc: seq<real>, out: seq<real>, c: nat, ch: nat): (r: seq<real>)
    requires 0 < c
    ensures |r| == |acc|
  {
    seq(|acc|, k requires 0 <= k < |acc| => if k % c == ch && k / c < |out| then out[k / c] else acc[k])
  }

  /** Scattering writes sample `i` of the channel at its slot. */
  lemma ScatterAt(acc: seq<real>, out: seq<real>, c: nat, ch: nat, i: nat)
    requires ch < c && i < |out| && i * c + ch < |acc|
    ensures Scatter(acc, out, c, ch)[i * c + ch] == out[i]
  {
    SlotDivMod(i, c, ch);
  }

  /** Scattering leaves every other channel's slots, and every slot past the
      channel's length, as they were. */
  lemma ScatterElsewhere(acc: seq<real>, out: seq<real>, c: nat, ch: nat, k: nat)
    requires 0 < c && k < |acc| && (k % c != ch || |out| * c <= k)
    ensures Scatter(acc, out, c, ch)[k] == acc[k]
  {
    BelowSlots(k, c, |out|);
  }

  /** Distinct channels write disjoint slots. */
  lemma SlotsDisjoint(i: int, j: int, c: int, ch1: int, ch2: int)
    requires 0 <= ch1 < c && 0 <= ch2 < c && ch1 != ch2
    ensures i * c + ch1 != j * c + ch2
  {
    SlotDivMod(i, c, ch1);
    SlotDivMod(j, c, ch2);
  }

  /** The first `count` channels denoised one after the other by one engine,
      starting from state `s` and a zeroed buffer: the state each channel
      leaves is the state the next one starts from (main.c:71-104). */
  function ChannelsUpTo(s: GateState, pcm: seq<real>, c: nat, spc: nat, count: nat, p: Params): (r: Processed)
    requires p.Valid() && p.Fits(s) && count <= c && spc * c <= |pcm|
    ensures p.Fits(r.state) && |r.output| == |pcm|
  {
    if count == 0 then
      Processed(s, Zeros(|pcm|))
    else
      var before := ChannelsUpTo(s, pcm, c, spc, count - 1, p);
      var channel := Process(before.state, ChannelOf(pcm, c, count - 1, spc), p);
      Processed(channel.state, Scatter(before.output, channel.output, c, count - 1))
  }

  /** One more channel: a state and output reached from those after the
      channels before `count` by the next channel's call and weave are
      those after it. */
  lemma ChannelsUpToNext(s: GateState, pcm: seq<real>, c: nat, spc: nat, count: nat, p: Params, next: Processed)
    requires p.Valid() && p.Fits(s) && count < c && spc * c <= |pcm|
    requires var before := ChannelsUpTo(s, pcm, c, spc, count, p);
      var channel := Process(before.state, ChannelOf(pcm, c, count, spc), p);
      next == Processed(channel.state, Scatter(before.output, channel.output, c, count))
    ensures next == ChannelsUpTo(s, pcm, c, spc, count + 1, p)
  {
    var after := count + 1;
    assert after != 0 && after - 1 == count;
  }

  /** What the driver computes (main.c:57-104): the whole buffer in one call
      for mono, otherwise every channel in turn. */
  function Denoise(s: GateState, pcm: seq<real>, c: nat, p: Params): (r: Processed)
    requires p.Valid() && p.Fits(s) && 0 < c
    ensures p.Fits(r.state) && |r.output| == |pcm|
  {
    if c == 1 then
      Process(s, pcm, p)
    else
      ChannelsUpTo(s, pcm, c, SamplesPerChannel(|pcm|, c), c, p)
  }

  /** Sample `i` of channel `ch` of the woven buffer is sample `i` of that
      channel's output, as its call produced it from the state the earlier
      channels left behind (main.c:89-103). */
  lemma {:induction false} ChannelsSlot(s: GateState, pcm: seq<real>, c: nat, spc: nat, count: nat, p: Params,
                                        i: nat, ch: nat)
    requires p.Valid() && p.Fits(s) && count <= c && spc * c <= |pcm|
    requires i < spc && ch < count
    ensures var channel := Process(ChannelsUpTo(s, pcm, c, spc, ch, p).state, ChannelOf(pcm, c, ch, spc), p);
      i * c + ch < spc * c && ChannelsUpTo(s, pcm, c, spc, count, p).output[i * c + ch] == channel.output[i]
  {
    SlotBound(i, c, ch, spc);
    var before := ChannelsUpTo(s, pcm, c, spc, count - 1, p);
    var channel := Process(before.state, ChannelOf(pcm, c, count - 1, spc), p);
    if ch == count - 1 {
      ScatterAt(before.output, channel.output, c, ch, i);
    } else {
      SlotDivMod(i, c, ch);
      ScatterElsewhere(before.output, channel.output, c, count - 1, i * c + ch);
      ChannelsSlot(s, pcm, c, spc, count - 1, p, i, ch);
    }
  }

  /** Samples past the whole channels are never written and keep their
      zero from calloc (main.c:49, 70). */
  lemma {:induction false} ChannelsLeaveRemainder(s: GateState, pcm: seq<real>, c: nat, spc: nat, count: nat, p: Params, k: nat)
    requires p.Valid() && p.Fits(s) && count <= c && spc * c <= |pcm|
    requires spc * c <= k < |pcm|
    ensures ChannelsUpTo(s, pcm, c, spc, count, p).output[k] == 0.0
  {
    if count > 0 {
      var before := ChannelsUpTo(s, pcm, c, spc, count - 1, p);
      var channel := Process(before.state, ChannelOf(pcm, c, count - 1, spc), p);
      ScatterElsewhere(before.output, channel.output, c, count - 1, k);
      ChannelsLeaveRemainder(s, pcm, c, spc, count - 1, p, k);
    }
  }

  /** The threshold carried from channel to channel never rises. */
  lemma {:induction false} ChannelsThresholdNonIncreasing(s: GateState, pcm: seq<real>, c: nat, spc: nat, count: nat, p: Params)
    requires p.Valid() && p.Fits(s) && count <= c && spc * c <= |pcm|
    ensures ChannelsUpTo(s, pcm, c, spc, count, p).state.threshold <= s.threshold
  {
    if count > 0 {
      var before := ChannelsUpTo(s, pcm, c, spc, count - 1, p);
      ChannelsThresholdNonIncreasing(s, pcm, c, spc, count - 1, p);
      ProcessThresholdNonIncreasing(before.state, ChannelOf(pcm, c, count - 1, spc), p);
    }
  }

  /** The noise estimate carried from channel to channel stays within
      [0, Baseline] when it starts there, as init leaves it. */
  lemma {:induction false} ChannelsNoiseInRange(s: GateState, pcm: seq<real>, c: nat, spc: nat, count: nat, p: Params)
    requires p.Valid() && p.dsp.ExactSqrt() && p.Fits(s) && count <= c && spc * c <= |pcm|
    requires forall j :: 0 <= j < |s.noise| ==> 0.0 <= s.noise[j] <= Baseline
    ensures forall j :: 0 <= j < |s.noise| ==> 0.0 <= ChannelsUpTo(s, pcm, c, spc, count, p).state.noise[j] <= Baseline
  {
    if count > 0 {
      var before := ChannelsUpTo(s, pcm, c, spc, count - 1, p);
      ChannelsNoiseInRange(s, pcm, c, spc, count - 1, p);
      assert forall j :: 0 <= j < |before.state.noise| ==> 0.0 <= before.state.noise[j] <= Baseline;
      NoiseStaysInBaselineRange(before.state, ChannelOf(pcm, c, count - 1, spc), p);
    }
  }

  /** Weaving the first `count` channels back unchanged: the layout half of
      the driver, with the engine taken out. */
  function Reassembled(pcm: seq<real>, c: nat, spc: nat, count: nat): (r: seq<real>)
    requires count <= c && spc * c <= |pcm|
    ensures |r| == |pcm|
  {
    if count == 0 then Zeros(|pcm|)
    else Scatter(Reassembled(pcm, c, spc, count - 1), ChannelOf(pcm, c, count - 1, spc), c, count - 1)
  }

  /** After `count` channels, a slot holds the input sample when its
      channel has been woven back, and zero otherwise. */
  lemma {:induction false} ReassembledAt(pcm: seq<real>, c: nat, spc: nat, count: nat, k: nat)
    requires count <= c && spc * c <= |pcm| && k < |pcm|
    ensures Reassembled(pcm, c, spc, count)[k] == if k < spc * c && k % c < count then pcm[k] else 0.0
  {
    if count > 0 {
      var before := Reassembled(pcm, c, spc, count - 1);
      var channel := ChannelOf(pcm, c, count - 1, spc);
      ReassembledAt(pcm, c, spc, count - 1, k);
      BelowSlots(k, c, spc);
      if k % c == count - 1 && k < spc * c {
        assert k == (k / c) * c + k % c;
        assert Scatter(before, channel, c, count - 1)[k] == channel[k / c];
      } else {
        ScatterElsewhere(before, channel, c, count - 1, k);
      }
    }
  }

  /** Round trip: splitting into channels and weaving every channel back
      gives the input on the whole channels and zeros on the remainder. */
  lemma SplitThenWeave(pcm: seq<real>, c: nat)
    requires 0 < c
    ensures var spc := SamplesPerChannel(|pcm|, c);
      Reassembled(pcm, c, spc, c) == seq(|pcm|, k requires 0 <= k < |pcm| => if k < spc * c then pcm[k] else 0.0)
  {
    var spc := SamplesPerChannel(|pcm|, c);
    forall k | 0 <= k < |pcm|
      ensures Reassembled(pcm, c, spc, c)[k] == if k < spc * c then pcm[k] else 0.0
    {
      ReassembledAt(pcm, c, spc, c, k);
    }
  }

  /** The deinterleave loop (main.c:85-87) into a fresh `channel_in`. */
  method Deinterleave(pcm: array<real>, c: int, ch: int, spc: int) returns (channelIn: array<real>)
    requires 0 <= ch < c && 0 <= spc && spc * c <= pcm.Length
    ensures fresh(channelIn)
    ensures channelIn[..] == ChannelOf(pcm[..], c, ch, spc)
  {
    ghost var channel := ChannelOf(pcm[..], c, ch, spc);
    channelIn := new real[spc];
    for i := 0 to spc
      invariant forall j :: 0 <= j < i ==> channelIn[j] == channel[j]
    {
      SlotBound(i, c, ch, spc);
      channelIn[i] := pcm[i * c + ch];
    }
  }

  /** The reinterleave loop (main.c:101-103) into `processed_data`. */
  method Reinterleave(processed: array<real>, channelOut: array<real>, c: int, ch: int)
    requires 0 <= ch < c && channelOut.Length * c <= processed.Length && processed != channelOut
    modifies processed
    ensures processed[..] == Scatter(old(processed[..]), channelOut[..], c, ch)
  {
    ghost var target := Scatter(processed[..], channelOut[..], c, ch);
    for i := 0 to channelOut.Length
      invariant forall k :: 0 <= k < processed.Length && k % c == ch && k / c < i ==> processed[k] == target[k]
      invariant forall k :: 0 <= k < processed.Length && (k % c != ch || i <= k / c) ==> processed[k] == old(processed[k])
    {
      SlotBound(i, c, ch, channelOut.Length);
      SlotDivMod(i, c, ch);
      processed[i * c + ch] := channelOut[i];
      forall k | 0 <= k < processed.Length && k % c == ch && k / c == i
        ensures k == i * c + ch
      {
        assert k == (k / c) * c + k % c;
      }
    }
    forall k | 0 <= k < processed.Length ensures processed[k] == target[k] {
      BelowSlots(k, c, channelOut.Length);
    }
  }

  /** main.c:47-104 for an engine that init accepted: a zeroed
      `processed_data`, then one call for mono or the channel loop
      otherwise. Every call succeeds, and the result and the engine state are
      what `Denoise` gives. */
  method DenoiseBuffer(spd: SpectralGate, pcm: array<real>, channels: int, d: Dsp)
    returns (processed: array<real>)
    requires d.Valid() && spd.Valid() && spd.initialized && 0 < channels
    requires pcm !in spd.Buffers()
    modifies spd, spd.noiseEst, spd.overlap
    ensures fresh(processed) && spd.Valid() && spd.SameShape()
    ensures var r := Denoise(old(spd.State()), old(pcm[..]), channels, old(spd.ParamsFor(d)));
      spd.State() == r.state && processed[..] == r.output
  {
    ghost var s0 := spd.State();
    ghost var p := spd.ParamsFor(d);
    processed := new real[pcm.Length](_ => 0.0);
    if channels == 1 {
      var status := Start(spd, pcm, processed, pcm.Length, d);
      assert processed[..pcm.Length] == processed[..] && pcm[..pcm.Length] == pcm[..];
      assert Processed(spd.State(), processed[..]) == Process(s0, pcm[..], p);
    } else {
      DenoiseChannels(spd, pcm, channels, processed, d);
    }
  }

  /** The channel loop (main.c:71-104): every channel in turn through the
      same engine, woven back into `processed`. */
  method DenoiseChannels(spd: SpectralGate, pcm: array<real>, channels: int, processed: array<real>, d: Dsp)
    requires d.Valid() && spd.Valid() && spd.initialized && 0 < channels
    requires pcm !in spd.Buffers() && processed !in spd.Buffers() && pcm != processed
    requires processed.Length == pcm.Length && processed[..] == Zeros(pcm.Length)
    modifies spd, spd.noiseEst, spd.overlap, processed
    ensures spd.Valid() && spd.SameShape()
    ensures Processed(spd.State(), processed[..]) == ChannelsUpTo(old(spd.State()), old(pcm[..]), channels,
                                                                  SamplesPerChannel(pcm.Length, channels), channels,
                                                                  old(spd.ParamsFor(d)))
  {
    ghost var s0 := spd.State();
    ghost var p := spd.ParamsFor(d);
    ghost var pcm0 := pcm[..];
    var spc := pcm.Length / channels;
    assert spc == SamplesPerChannel(pcm.Length, channels);
    for ch := 0 to channels
      invariant spd.Valid() && spd.initialized && spd.ParamsFor(d) == p && spd.SameShape()
      invariant pcm[..] == pcm0
      invariant ChannelsUpTo(s0, pcm0, channels, spc, ch, p) == Processed(spd.State(), processed[..])
    {
      DenoiseChannel(spd, pcm, channels, ch, spc, processed, d, s0, pcm0, p);
    }
  }

  /** One pass of the channel loop (main.c:72-105): split channel `ch` out,
      run the engine on it, and weave the result back. The ghost arguments
      name the driver's starting state, its input and the fixed parameters,
      so that the new state and buffer are those after channel `ch`. */
  method DenoiseChannel(spd: SpectralGate, pcm: array<real>, channels: int, ch: int, spc: int,
                        processed: array<real>, d: Dsp, ghost s0: GateState, ghost pcm0: seq<real>, ghost p: Params)
    requires d.Valid() && spd.Valid() && spd.initialized && 0 <= ch < channels && 0 <= spc
    requires pcm !in spd.Buffers() && processed !in spd.Buffers() && pcm != processed
    requires spc * channels <= pcm.Length == processed.Length
    requires p == spd.ParamsFor(d) && p.Fits(s0) && pcm0 == pcm[..]
    requires ChannelsUpTo(s0, pcm0, channels, spc, ch, p) == Processed(spd.State(), processed[..])
    modifies spd, spd.noiseEst, spd.overlap, processed
    ensures spd.Valid() && spd.SameShape() && spd.ParamsFor(d) == p
    ensures var channel := Process(old(spd.State()), ChannelOf(pcm0, channels, ch, spc), p);
      spd.State() == channel.state && processed[..] == Scatter(old(processed[..]), channel.output, channels, ch)
    ensures ChannelsUpTo(s0, pcm0, channels, spc, ch + 1, p) == Processed(spd.State(), processed[..])
  {
    var channelIn := Deinterleave(pcm, channels, ch, spc);
    var channelOut := new real[spc](_ => 0.0);
    var status := Start(spd, channelIn, channelOut, spc, d);
    assert channelOut[..spc] == channelOut[..] && channelIn[..spc] == channelIn[..];
    Reinterleave(processed, channelOut, channels, ch);
    ChannelsUpToNext(s0, pcm0, channels, spc, ch, p, Processed(spd.State(), processed[..]));
  }
}
