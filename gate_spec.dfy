/** What one call of `spectral_gate_start` computes, frame by frame, stated
    as functions over sequences of reals. The imperative engine in module
    NoiseReduce is proved to compute exactly `Process`. */
module GateSpec {
  import opened Numerics

  /** Smoothing factor of the silence-threshold update (noisereduce.c:125). */
  const Gamma: real := 0.2
  /** Initial noise estimate of every bin (noisereduce.c:64, `1e-3f`). */
  const Baseline: real := 0.001
  /** Guard added to the noise power in the SNR denominator (`1e-10f`). */
  const Epsilon: real := 0.0000000001

  /** The part of the engine state that one call reads and rewrites:
      `config.silence_threshold`, `noise_est` and `overlap`. */
  datatype GateState = GateState(threshold: real, noise: seq<real>, overlap: seq<real>)

  /** What stays fixed during a call: the window (its length is the frame
      size N), the hop H, the noise-floor gain and the collaborators. */
  datatype Params = Params(window: seq<real>, hop: nat, floorGain: real, dsp: Dsp)
  {
    function N(): nat
    {
      |window|
    }

    ghost predicate Valid()
    {
      0 < hop <= |window| && dsp.Valid()
    }

    /** The buffer lengths that init establishes. */
    predicate Fits(s: GateState)
    {
      |s.noise| == |window| / 2 + 1 && |s.overlap| == |window|
    }
  }

  /** A frame's effect: the next state and the N values added to the output. */
  datatype Frame = Frame(state: GateState, contribution: seq<real>)

  /** A call's effect: the final state and the whole output buffer. */
  datatype Processed = Processed(state: GateState, output: seq<real>)

  /** Running sum of squares, accumulated left to right as the loop does. */
  function SumSquares(s: seq<real>): (r: real)
    ensures 0.0 <= r
  {
    if s == [] then 0.0 else SumSquares(s[..|s| - 1]) + s[|s| - 1] * s[|s| - 1]
  }

  /** Mean squared raw sample of a frame; the window is not applied. */
  function Energy(frame: seq<real>): (e: real)
    requires frame != []
    ensures 0.0 <= e
  {
    SumSquares(frame) / (|frame| as real)
  }

  /** Outcome of the voice-activity test for one frame. */
  datatype Vad = Vad(threshold: real, silent: bool)

  /** Threshold adaptation and silence classification (noisereduce.c:125-130):
      the threshold moves towards the frame energy only when the energy is
      below it, and the frame is silent against the updated threshold. */
  function Classify(threshold: real, energy: real): (v: Vad)
    ensures v.silent <==> energy < threshold
    ensures v.threshold <= threshold
    ensures v.silent ==> energy < v.threshold && v.threshold == (1.0 - Gamma) * threshold + Gamma * energy
    ensures !v.silent ==> v.threshold == threshold
  {
    var t := if energy < threshold then (1.0 - Gamma) * threshold + Gamma * energy else threshold;
    Vad(t, energy < t)
  }

  /** Squared magnitude of a bin. */
  function Mag2(c: Cpx): (r: real)
    ensures 0.0 <= r
  {
    c.re * c.re + c.im * c.im
  }

  lemma SquareMonotone(a: real, b: real)
    requires 0.0 <= b <= a
    ensures b * b <= a * a
  {
    calc {
      b * b;
    <= b * a;
    <= a * a;
    }
  }

  /** Minimum tracking of one bin's noise magnitude (noisereduce.c:146-153):
      only a silent frame whose bin power is below the estimate's square
      replaces the estimate, by the bin's magnitude. */
  function TrackMin(noise: real, mag2: real, silent: bool, d: Dsp): (r: real)
    ensures r != noise ==> silent && mag2 < noise * noise && r == d.sqrt(mag2)
  {
    if silent && mag2 < noise * noise then d.sqrt(mag2) else noise
  }

  /** With an exact square root, a tracked minimum never grows and never
      goes negative, and a replaced estimate is the bin's magnitude. */
  lemma TrackMinBounds(noise: real, mag2: real, silent: bool, d: Dsp)
    requires d.ExactSqrt() && 0.0 <= mag2
    ensures var r := TrackMin(noise, mag2, silent, d);
      (r != noise ==> 0.0 <= r && r * r == mag2) && (0.0 <= noise ==> 0.0 <= r <= noise)
  {
    if silent && mag2 < noise * noise {
      var root := d.sqrt(mag2);
      if 0.0 <= noise && noise < root {
        SquareMonotone(root, noise);
      }
    }
  }

  /** Signal-to-noise ratio of a bin against its noise estimate, clamped at
      zero (noisereduce.c:156-158). */
  function ClampedSnr(mag2: real, noise: real): (snr: real)
    ensures 0.0 <= snr
    ensures snr == 0.0 <==> mag2 <= noise * noise
  {
    var noise2 := noise * noise;
    var snr0 := (mag2 - noise2) / (noise2 + Epsilon);
    if snr0 < 0.0 then 0.0 else snr0
  }

  /** Wiener gain SNR/(1+SNR), raised to the floor gain (noisereduce.c:160-161). */
  function WienerGain(mag2: real, noise: real, floorGain: real): (g: real)
    ensures floorGain <= g && 0.0 <= g
    ensures floorGain < 1.0 ==> g < 1.0
    ensures floorGain <= 1.0 ==> g <= 1.0
    ensures mag2 <= noise * noise && 0.0 <= floorGain ==> g == floorGain
  {
    var snr := ClampedSnr(mag2, noise);
    var gain := snr / (1.0 + snr);
    if gain < floorGain then floorGain else gain
  }

  /** Both parts of a bin multiplied by the same gain (noisereduce.c:163-164). */
  function Scale(c: Cpx, g: real): (r: Cpx)
    ensures Mag2(r) == g * g * Mag2(c)
    ensures r.re * c.im == r.im * c.re
    ensures r.re * c.re + r.im * c.im == g * Mag2(c)
  {
    Cpx(c.re * g, c.im * g)
  }

  /** Raw frame times window: the transform input (noisereduce.c:133-135). */
  function Windowed(frame: seq<real>, window: seq<real>): (r: seq<real>)
    requires |frame| == |window|
    ensures |r| == |frame|
  {
    seq(|frame|, i requires 0 <= i < |frame| => frame[i] * window[i])
  }

  /** Noise estimate after one frame, bin by bin. */
  function NoiseAfter(noise: seq<real>, bins: seq<Cpx>, silent: bool, d: Dsp): (r: seq<real>)
    requires |bins| == |noise|
    ensures |r| == |noise|
  {
    seq(|noise|, j requires 0 <= j < |noise| => TrackMin(noise[j], Mag2(bins[j]), silent, d))
  }

  /** Gated bins: each bin scaled by its Wiener gain against the updated estimate. */
  function Gated(bins: seq<Cpx>, noise: seq<real>, floorGain: real): (r: seq<Cpx>)
    requires |bins| == |noise|
    ensures |r| == |bins|
  {
    seq(|bins|, j requires 0 <= j < |bins| => Scale(bins[j], WienerGain(Mag2(bins[j]), noise[j], floorGain)))
  }

  /** The N values added to `output[pos..pos+N]`: the scaled, re-windowed
      inverse transform plus the whole tail carried from the previous frame
      (noisereduce.c:172-176). */
  function Synthesis(time: seq<real>, window: seq<real>, overlap: seq<real>): (r: seq<real>)
    requires |time| == |window| == |overlap|
    ensures |r| == |window|
  {
    seq(|window|, i requires 0 <= i < |window| => time[i] / (|window| as real) * window[i] + overlap[i])
  }

  /** The tail kept for the next frame: the scaled, re-windowed samples from
      H on, shifted to the front, and zeros after them (noisereduce.c:181-187). */
  function Tail(time: seq<real>, window: seq<real>, hop: nat): (r: seq<real>)
    requires |time| == |window| && hop <= |window|
    ensures |r| == |window|
  {
    seq(|window|, i requires 0 <= i < |window| =>
      if i < |window| - hop then time[i + hop] / (|window| as real) * window[i + hop] else 0.0)
  }

  /** `c` added element-wise into `out` from index `pos` on. */
  function AddAt(out: seq<real>, pos: nat, c: seq<real>): (r: seq<real>)
    requires pos + |c| <= |out|
    ensures |r| == |out|
  {
    seq(|out|, k requires 0 <= k < |out| => if pos <= k < pos + |c| then out[k] + c[k - pos] else out[k])
  }

  /** One iteration of the frame loop (noisereduce.c:116-187). */
  function FrameStep(s: GateState, frame: seq<real>, p: Params): (r: Frame)
    requires p.Valid() && p.Fits(s) && |frame| == p.N()
    ensures p.Fits(r.state) && |r.contribution| == p.N()
  {
    var v := Classify(s.threshold, Energy(frame));
    var bins := p.dsp.fwd(Windowed(frame, p.window));
    var noise := NoiseAfter(s.noise, bins, v.silent, p.dsp);
    var time := p.dsp.inv(p.N(), Gated(bins, noise, p.floorGain));
    Frame(GateState(v.threshold, noise, Tail(time, p.window, p.hop)),
          Synthesis(time, p.window, s.overlap))
  }

  /** `pos` is a frame position: a multiple of the hop. */
  predicate OnGrid(pos: nat, hop: nat)
    decreases pos
  {
    pos == 0 || (0 < hop <= pos && OnGrid(pos - hop, hop))
  }

  /** The frame positions are exactly the multiples of the hop. */
  lemma {:induction false} OnGridIsMultiple(pos: nat, hop: nat)
    requires 0 < hop
    ensures OnGrid(pos, hop) <==> pos % hop == 0
    decreases pos
  {
    if pos == 0 {
      DivModUnique(0, hop, 0, 0);
    } else if pos < hop {
      DivModUnique(pos, hop, 0, pos);
    } else {
      OnGridIsMultiple(pos - hop, hop);
      DivModUnique(pos, hop, (pos - hop) / hop + 1, (pos - hop) % hop);
    }
  }

  /** Where the frame loop stops: the first frame position from `pos` on
      whose frame does not fit whole (noisereduce.c:115, 188). */
  function LoopEnd(n: nat, frameSize: nat, hop: nat, pos: nat): (e: nat)
    requires 0 < hop && OnGrid(pos, hop)
    ensures OnGrid(e, hop) && pos <= e && n < e + frameSize
    ensures e == pos || e - hop + frameSize <= n
    decreases n - pos
  {
    if pos + frameSize <= n then LoopEnd(n, frameSize, hop, pos + hop) else pos
  }

  /** Two frame positions are at least a hop apart. */
  lemma {:induction false} GridGap(a: nat, b: nat, hop: nat)
    requires OnGrid(a, hop) && OnGrid(b, hop) && a < b
    ensures a + hop <= b
    decreases a
  {
    if a != 0 {
      GridGap(a - hop, b - hop, hop);
    }
  }

  /** The frame position from `q` on where the loop stops is the one whose
      frame does not fit while the frame before it does. */
  lemma {:induction false} LoopEndAt(n: nat, frameSize: nat, hop: nat, q: nat, pos: nat)
    requires 0 < hop && OnGrid(q, hop) && OnGrid(pos, hop) && q <= pos
    requires n < pos + frameSize && (pos == q || pos - hop + frameSize <= n)
    ensures LoopEnd(n, frameSize, hop, q) == pos
    decreases pos - q
  {
    if q < pos {
      GridGap(q, pos, hop);
      LoopEndAt(n, frameSize, hop, q + hop, pos);
    }
  }

  /** The state and output after every frame that starts at a frame
      position below `pos`, from state `s` and output `out`: the frame loop
      (noisereduce.c:115-188) up to `pos`. */
  function RunTo(s: GateState, input: seq<real>, out: seq<real>, p: Params, pos: nat): (r: Processed)
    requires p.Valid() && p.Fits(s) && |out| == |input| && OnGrid(pos, p.hop)
    requires pos == 0 || pos - p.hop + p.N() <= |input|
    ensures p.Fits(r.state) && |r.output| == |input|
    decreases pos
  {
    if pos == 0 then
      Processed(s, out)
    else
      var start := pos - p.hop;
      var prev := RunTo(s, input, out, p, start);
      var f := FrameStep(prev.state, input[start..start + p.N()], p);
      Processed(f.state, AddAt(prev.output, start, f.contribution))
  }

  /** One more frame: a state and output reached from the state after the
      frames before `pos` by the frame at `pos` are the state after it. */
  lemma RunToNext(s: GateState, input: seq<real>, out: seq<real>, p: Params, pos: nat, next: Processed)
    requires p.Valid() && p.Fits(s) && |out| == |input| && OnGrid(pos, p.hop)
    requires pos + p.N() <= |input|
    requires var prev := RunTo(s, input, out, p, pos);
      var f := FrameStep(prev.state, input[pos..pos + p.N()], p);
      next == Processed(f.state, AddAt(prev.output, pos, f.contribution))
    ensures OnGrid(pos + p.hop, p.hop)
    ensures next == RunTo(s, input, out, p, pos + p.hop)
  {
    var after := pos + p.hop;
    assert after != 0 && after - p.hop == pos;
    var prev := RunTo(s, input, out, p, pos);
    var f := FrameStep(prev.state, input[pos..pos + p.N()], p);
    assert RunTo(s, input, out, p, after) == Processed(f.state, AddAt(prev.output, pos, f.contribution));
  }

  /** A whole call: the output is zeroed first (noisereduce.c:96), then a
      frame at every frame position whose frame fits whole. */
  function Process(s: GateState, input: seq<real>, p: Params): (r: Processed)
    requires p.Valid() && p.Fits(s)
    ensures p.Fits(r.state) && |r.output| == |input|
  {
    RunTo(s, input, Zeros(|input|), p, LoopEnd(|input|, p.N(), p.hop, 0))
  }
}
