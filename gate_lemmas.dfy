/** Properties of the frame loop `RunTo`: what the threshold and the noise
    estimate can do over any number of frames, which output positions the
    loop writes, and how the overlap tail behaves. */
module GateLemmas {
  import opened Numerics
  import opened GateSpec

  /** The silence threshold never rises: it persists and only moves down
      (noisereduce.c:126-128). */
  lemma {:induction false} RunThresholdNonIncreasing(s: GateState, input: seq<real>, out: seq<real>, p: Params, pos: nat)
    requires p.Valid() && p.Fits(s) && |out| == |input| && OnGrid(pos, p.hop)
    requires pos == 0 || pos - p.hop + p.N() <= |input|
    ensures RunTo(s, input, out, p, pos).state.threshold <= s.threshold
    decreases pos
  {
    if pos != 0 {
      RunThresholdNonIncreasing(s, input, out, p, pos - p.hop);
    }
  }

  /** Over a whole call the threshold can only go down. */
  lemma ProcessThresholdNonIncreasing(s: GateState, input: seq<real>, p: Params)
    requires p.Valid() && p.Fits(s)
    ensures Process(s, input, p).state.threshold <= s.threshold
  {
    RunThresholdNonIncreasing(s, input, Zeros(|input|), p, LoopEnd(|input|, p.N(), p.hop, 0));
  }

  /** Within one frame, a bin that is non-negative stays so and does not
      grow (noisereduce.c:146-153). */
  lemma FrameNoiseNonIncreasing(s: GateState, frame: seq<real>, p: Params)
    requires p.Valid() && p.dsp.ExactSqrt() && p.Fits(s) && |frame| == p.N()
    ensures forall j :: 0 <= j < |s.noise| && 0.0 <= s.noise[j] ==>
      0.0 <= FrameStep(s, frame, p).state.noise[j] <= s.noise[j]
  {
    var v := Classify(s.threshold, Energy(frame));
    var bins := p.dsp.fwd(Windowed(frame, p.window));
    var noise := NoiseAfter(s.noise, bins, v.silent, p.dsp);
    assert FrameStep(s, frame, p).state.noise == noise;
    forall j | 0 <= j < |s.noise| && 0.0 <= s.noise[j] ensures 0.0 <= noise[j] <= s.noise[j] {
      TrackMinBounds(s.noise[j], Mag2(bins[j]), v.silent, p.dsp);
    }
  }

  /** Every bin of the noise estimate that starts non-negative stays
      non-negative and never grows over any number of frames. */
  lemma {:induction false} RunNoiseNonIncreasing(s: GateState, input: seq<real>, out: seq<real>, p: Params, pos: nat)
    requires p.Valid() && p.dsp.ExactSqrt() && p.Fits(s) && |out| == |input| && OnGrid(pos, p.hop)
    requires pos == 0 || pos - p.hop + p.N() <= |input|
    ensures forall j :: 0 <= j < |s.noise| && 0.0 <= s.noise[j] ==>
      0.0 <= RunTo(s, input, out, p, pos).state.noise[j] <= s.noise[j]
    decreases pos
  {
    if pos != 0 {
      var start := pos - p.hop;
      RunNoiseNonIncreasing(s, input, out, p, start);
      var prev := RunTo(s, input, out, p, start);
      var frame := input[start..start + p.N()];
      FrameNoiseNonIncreasing(prev.state, frame, p);
      assert RunTo(s, input, out, p, pos).state.noise == FrameStep(prev.state, frame, p).state.noise;
    }
  }

  /** Starting from init's baseline, or anything below it, every bin stays
      within [0, Baseline]. */
  lemma NoiseStaysInBaselineRange(s: GateState, input: seq<real>, p: Params)
    requires p.Valid() && p.dsp.ExactSqrt() && p.Fits(s)
    requires forall j :: 0 <= j < |s.noise| ==> 0.0 <= s.noise[j] <= Baseline
    ensures forall j :: 0 <= j < |s.noise| ==> 0.0 <= Process(s, input, p).state.noise[j] <= Baseline
  {
    RunNoiseNonIncreasing(s, input, Zeros(|input|), p, LoopEnd(|input|, p.N(), p.hop, 0));
  }

  /** The noise estimate of a frame changes only when the frame is silent,
      that is when its energy is below the threshold held before it. */
  lemma FrameNoiseMovesOnlyWhenSilent(s: GateState, frame: seq<real>, p: Params)
    requires p.Valid() && p.Fits(s) && |frame| == p.N()
    ensures FrameStep(s, frame, p).state.noise != s.noise ==> Energy(frame) < s.threshold
  {
    var e := Energy(frame);
    if !(e < s.threshold) {
      NoiseAfterNotSilent(s.noise, p.dsp.fwd(Windowed(frame, p.window)), p.dsp);
    }
  }

  /** With a threshold that starts at or below zero no frame is ever silent
      (energies are never negative), so neither the threshold nor the noise
      estimate moves. */
  lemma {:induction false} NoSilenceBelowZeroThreshold(s: GateState, input: seq<real>, out: seq<real>, p: Params, pos: nat)
    requires p.Valid() && p.Fits(s) && |out| == |input| && OnGrid(pos, p.hop)
    requires pos == 0 || pos - p.hop + p.N() <= |input|
    requires s.threshold <= 0.0
    ensures RunTo(s, input, out, p, pos).state.threshold == s.threshold
    ensures RunTo(s, input, out, p, pos).state.noise == s.noise
    decreases pos
  {
    if pos != 0 {
      var start := pos - p.hop;
      var prev := RunTo(s, input, out, p, start);
      NoSilenceBelowZeroThreshold(s, input, out, p, start);
      FrameNoiseMovesOnlyWhenSilent(prev.state, input[start..start + p.N()], p);
    }
  }

  /** A frame that is not silent leaves every bin of the noise estimate as
      it was (noisereduce.c:146). */
  lemma NoiseAfterNotSilent(noise: seq<real>, bins: seq<Cpx>, d: Dsp)
    requires |bins| == |noise|
    ensures NoiseAfter(noise, bins, false, d) == noise
  {
    forall j | 0 <= j < |noise| ensures NoiseAfter(noise, bins, false, d)[j] == noise[j] {
    }
  }

  /** The last H entries of the new tail are zero (noisereduce.c:185-187). */
  lemma TailZeroFill(time: seq<real>, window: seq<real>, hop: nat)
    requires |time| == |window| && hop <= |window|
    ensures forall i :: |window| - hop <= i < |window| ==> Tail(time, window, hop)[i] == 0.0
  {
  }

  /** A frame's new tail does not depend on the tail it received: no earlier
      tail value survives the frame. */
  lemma FrameForgetsOverlap(s: GateState, o: seq<real>, frame: seq<real>, p: Params)
    requires p.Valid() && p.Fits(s) && |o| == p.N() && |frame| == p.N()
    ensures FrameStep(s, frame, p).state == FrameStep(s.(overlap := o), frame, p).state
  {
  }

  /** The frame loop writes nothing at or after the end of the last frame
      it has run. */
  lemma {:induction false} RunWritesOnlyFrames(s: GateState, input: seq<real>, out: seq<real>, p: Params, pos: nat)
    requires p.Valid() && p.Fits(s) && |out| == |input| && OnGrid(pos, p.hop)
    requires pos == 0 || pos - p.hop + p.N() <= |input|
    ensures var end := if pos == 0 then 0 else pos - p.hop + p.N();
      forall k :: end <= k < |input| ==> RunTo(s, input, out, p, pos).output[k] == out[k]
    decreases pos
  {
    if pos != 0 {
      RunWritesOnlyFrames(s, input, out, p, pos - p.hop);
    }
  }

  /** Frames start at 0, H, 2H, ... while a whole frame fits, so the loop
      stops at ((n-N)/H + 1)*H when one frame fits at all. */
  lemma {:induction false} LoopEndFrom(n: nat, frameSize: nat, hop: nat, pos: nat)
    requires 0 < hop && OnGrid(pos, hop) && pos + frameSize <= n
    ensures LoopEnd(n, frameSize, hop, pos) == pos + ((n - frameSize - pos) / hop + 1) * hop
    decreases n - pos
  {
    var m := n - frameSize - pos;
    if pos + hop + frameSize <= n {
      LoopEndFrom(n, frameSize, hop, pos + hop);
      DivModUnique(m, hop, (m - hop) / hop + 1, (m - hop) % hop);
    } else {
      DivModUnique(m, hop, 0, m);
    }
  }

  /** The end of the last frame of a call over `n` samples: 0 when no
      frame fits, else the position the loop stopped at, less one hop, plus
      one frame. */
  function LastFrameEnd(n: nat, frameSize: nat, hop: nat): (e: nat)
    requires 0 < hop
    ensures e <= n
    ensures e == 0 || (frameSize <= e && n < e + hop)
  {
    var stop := LoopEnd(n, frameSize, hop, 0);
    if stop == 0 then 0 else stop - hop + frameSize
  }

  /** Frames start at multiples of H while a whole frame fits, so the last
      one ends at ((n-N)/H)*H + N. */
  lemma LastFrameEndClosedForm(n: nat, frameSize: nat, hop: nat)
    requires 0 < hop <= frameSize
    ensures LastFrameEnd(n, frameSize, hop) == if frameSize <= n then ((n - frameSize) / hop) * hop + frameSize else 0
  {
    if frameSize <= n {
      LoopEndFrom(n, frameSize, hop, 0);
    }
  }

  /** The output is zero from the end of the last whole frame on; in
      particular an input shorter than one frame gives an all-zero output
      (noisereduce.c:96, 115). */
  lemma ProcessTailIsZero(s: GateState, input: seq<real>, p: Params)
    requires p.Valid() && p.Fits(s)
    ensures forall k :: LastFrameEnd(|input|, p.N(), p.hop) <= k < |input| ==> Process(s, input, p).output[k] == 0.0
  {
    RunWritesOnlyFrames(s, input, Zeros(|input|), p, LoopEnd(|input|, p.N(), p.hop, 0));
  }

  /** A silent frame windows, transforms and gates to all-zero bins, whatever
      the noise estimate and the silence decision. */
  lemma SilentSpectrum(frame: seq<real>, window: seq<real>, noise: seq<real>, silent: bool, floorGain: real, d: Dsp)
    requires d.Valid() && |frame| == |window| && frame == Zeros(|frame|) && |noise| == |frame| / 2 + 1
    requires d.fwd(Zeros(|frame|)) == ZeroBins(|noise|)
    ensures var bins := d.fwd(Windowed(frame, window));
      Gated(bins, NoiseAfter(noise, bins, silent, d), floorGain) == ZeroBins(|noise|)
  {
    var n := |frame|;
    forall i | 0 <= i < n ensures Windowed(frame, window)[i] == 0.0 {
      calc {
        Windowed(frame, window)[i];
        frame[i] * window[i];
        0.0 * window[i];
      }
    }
    assert Windowed(frame, window) == Zeros(n);
  }

  /** A silent inverse transform with a silent incoming tail adds nothing and
      leaves a silent tail. */
  lemma SilentSynthesis(time: seq<real>, window: seq<real>, hop: nat)
    requires time == Zeros(|window|) && hop <= |window|
    ensures Synthesis(time, window, Zeros(|window|)) == Zeros(|window|)
    ensures Tail(time, window, hop) == Zeros(|window|)
  {
  }

  /** Adding zeros leaves the output as it was. */
  lemma AddZeros(out: seq<real>, pos: nat, n: nat)
    requires pos + n <= |out|
    ensures AddAt(out, pos, Zeros(n)) == out
  {
  }

  /** One silent frame entered with a silent tail contributes nothing and
      leaves a silent tail. */
  lemma SilentFrame(s: GateState, input: seq<real>, out: seq<real>, start: nat, p: Params)
    requires p.Valid() && p.Fits(s) && p.dsp.SilentAt(p.N())
    requires |out| == |input| && start + p.N() <= |input|
    requires input == Zeros(|input|) && s.overlap == Zeros(p.N())
    ensures var f := FrameStep(s, input[start..start + p.N()], p);
      AddAt(out, start, f.contribution) == out && f.state.overlap == Zeros(p.N())
  {
    var n := p.N();
    var frame := input[start..start + n];
    assert frame == Zeros(n);
    var v := Classify(s.threshold, Energy(frame));
    SilentSpectrum(frame, p.window, s.noise, v.silent, p.floorGain, p.dsp);
    SilentSynthesis(p.dsp.inv(n, ZeroBins(n / 2 + 1)), p.window, p.hop);
    AddZeros(out, start, n);
  }

  /** A silent input leaves the output as it was and leaves a silent tail,
      but only if the tail it starts from is silent too: a tail carried over
      from an earlier call is emitted into the first frame. */
  lemma {:induction false} SilenceKeepsOutput(s: GateState, input: seq<real>, out: seq<real>, p: Params, pos: nat)
    requires p.Valid() && p.Fits(s) && |out| == |input| && OnGrid(pos, p.hop) && p.dsp.SilentAt(p.N())
    requires pos == 0 || pos - p.hop + p.N() <= |input|
    requires input == Zeros(|input|) && s.overlap == Zeros(p.N())
    ensures RunTo(s, input, out, p, pos).output == out
    ensures RunTo(s, input, out, p, pos).state.overlap == Zeros(p.N())
    decreases pos
  {
    if pos != 0 {
      var start := pos - p.hop;
      SilenceKeepsOutput(s, input, out, p, start);
      var prev := RunTo(s, input, out, p, start);
      var f := FrameStep(prev.state, input[start..start + p.N()], p);
      assert RunTo(s, input, out, p, pos) == Processed(f.state, AddAt(prev.output, start, f.contribution));
      SilentFrame(prev.state, input, out, start, p);
    }
  }

  /** Silence in, silence out, for a call that starts with a silent tail. */
  lemma SilenceInSilenceOut(s: GateState, input: seq<real>, p: Params)
    requires p.Valid() && p.Fits(s) && p.dsp.SilentAt(p.N())
    requires input == Zeros(|input|) && s.overlap == Zeros(p.N())
    ensures Process(s, input, p).output == Zeros(|input|)
  {
    SilenceKeepsOutput(s, input, Zeros(|input|), p, LoopEnd(|input|, p.N(), p.hop, 0));
  }

  /** As written, a sample covered by two consecutive frames receives the
      earlier frame's tail twice: once from the earlier frame's own `+=` over
      all N positions and once more through `overlap` in the later frame
      (noisereduce.c:172-176, 182-183). */
  lemma TailAddedTwice(out: seq<real>, pos: nat, hop: nat, window: seq<real>,
                       time1: seq<real>, time2: seq<real>, overlap0: seq<real>, i: nat)
    requires |time1| == |time2| == |overlap0| == |window|
    requires 0 < hop <= |window| && pos + hop + |window| <= |out| && i < |window| - hop
    ensures var tail := Tail(time1, window, hop);
      var both := AddAt(AddAt(out, pos, Synthesis(time1, window, overlap0)), pos + hop, Synthesis(time2, window, tail));
      both[pos + hop + i] == out[pos + hop + i] + overlap0[hop + i] + 2.0 * tail[i] + time2[i] / (|window| as real) * window[i]
  {
  }
}
