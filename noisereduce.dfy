/** The spectral-gate engine of src/noisereduce.c: the engine object with
    its window, noise-estimate and overlap buffers, its construction, its
    release, and the frame loop, each proved to compute what GateSpec says. */
module NoiseReduce {
  import opened Numerics
  import opened GateSpec

  datatype Option<T> = None | Some(value: T)

  /** SpectralGateConfig (lib/noisereduce.h:12-19). `alpha` and
      `noiseDecay` are carried but never used by the engine. */
  datatype Config = Config(frameSize: int, hopSize: int, alpha: real, noiseFloor: real,
                           noiseDecay: real, silenceThreshold: real)

  /** The only checks init makes: no power-of-two test (noisereduce.c:23). */
  predicate Accepted(c: Config)
    ensures Accepted(c) ==> 0 <= c.frameSize - c.hopSize < c.frameSize && 0 < c.frameSize / 2 + 1
  {
    0 < c.frameSize && 0 < c.hopSize && c.hopSize <= c.frameSize
  }

  /** The window that make_hann_window fills in, one value per index. */
  function HannWindow(n: nat, d: Dsp): (w: seq<real>)
    ensures |w| == n
  {
    seq(n, i requires 0 <= i < n => d.hann(n, i))
  }

  /** SpectralGateData (lib/noisereduce.h:21-33). The transform contexts are
      the `Dsp` argument of the operations; a null buffer is a null array. */
  class SpectralGate {
    var config: Config
    var window: array?<real>
    var noiseEst: array?<real>
    var overlap: array?<real>
    var initialized: bool

    /** The zero-filled object that calloc yields (noisereduce.c:27). */
    constructor Calloc()
      ensures config == Config(0, 0, 0.0, 0.0, 0.0, 0.0)
      ensures window == null && noiseEst == null && overlap == null && !initialized
    {
      config := Config(0, 0, 0.0, 0.0, 0.0, 0.0);
      window, noiseEst, overlap := null, null, null;
      initialized := false;
    }

    /** Once initialised: three distinct buffers of the lengths init gives
        them, and an accepted configuration. */
    ghost predicate Valid()
      reads this
    {
      initialized ==>
        && window != null && noiseEst != null && overlap != null
        && Accepted(config)
        && window.Length == config.frameSize
        && noiseEst.Length == config.frameSize / 2 + 1
        && overlap.Length == config.frameSize
        && window != noiseEst && window != overlap && noiseEst != overlap
    }

    /** The buffers the engine owns. */
    ghost function Buffers(): set<array<real>>
      reads this
    {
      (if window != null then {window} else {}) +
      (if noiseEst != null then {noiseEst} else {}) +
      (if overlap != null then {overlap} else {})
    }

    /** What a call reads and rewrites. */
    ghost function State(): GateState
      reads this, noiseEst, overlap
      requires Valid() && initialized
    {
      GateState(config.silenceThreshold, noiseEst[..], overlap[..])
    }

    /** What stays fixed during a call. */
    ghost function ParamsFor(d: Dsp): Params
      reads this, window
      requires Valid() && initialized
    {
      Params(window[..], config.hopSize as nat, d.dbToGain(config.noiseFloor), d)
    }

    /** The window, the tail, the hop and the rest of the configuration are
        the same objects and values as in `old`; only the threshold may move. */
    twostate predicate SameShape()
      reads this
    {
      && window == old(window) && noiseEst == old(noiseEst) && overlap == old(overlap)
      && initialized == old(initialized)
      && config == old(config).(silenceThreshold := config.silenceThreshold)
    }
  }

  /** The arrays one call works on: the caller's input and output, the
      engine's three buffers and the two scratch buffers, with the lengths
      init and start give them, all distinct (noisereduce.c:45-47, 99-101). */
  predicate Workspace(input: array<real>, output: array<real>, len: int,
                      window: array<real>, noiseEst: array<real>, overlap: array<real>, hop: int,
                      inBuf: array<real>, outBins: array<Cpx>)
  {
    && 0 < hop <= window.Length && 0 <= len <= input.Length && len <= output.Length
    && noiseEst.Length == window.Length / 2 + 1 && overlap.Length == window.Length
    && inBuf.Length == window.Length && outBins.Length == window.Length / 2 + 1
    && window != noiseEst && window != overlap && noiseEst != overlap
    && input != output && input != inBuf && output != inBuf
    && input != window && input != noiseEst && input != overlap
    && output != window && output != noiseEst && output != overlap
    && inBuf != window && inBuf != noiseEst && inBuf != overlap
  }

  /** One pass of the frame loop for the frame at `pos`
      (noisereduce.c:116-187): the silence test adapts the threshold, which
      is returned, and the rest of the frame works on the engine's buffers. */
  method ProcessFrame(input: array<real>, pos: int, threshold: real,
                      window: array<real>, noiseEst: array<real>, overlap: array<real>, hop: int,
                      inBuf: array<real>, outBins: array<Cpx>, floorGain: real,
                      output: array<real>, len: int, d: Dsp, ghost p: Params, ghost in0: seq<real>)
    returns (newThreshold: real)
    requires d.Valid()
    requires Workspace(input, output, len, window, noiseEst, overlap, hop, inBuf, outBins)
    requires 0 <= pos && pos + window.Length <= len
    requires p == Params(window[..], hop as nat, floorGain, d) && in0 == input[..len]
    modifies noiseEst, overlap, output, inBuf, outBins
    ensures var f := FrameStep(GateState(threshold, old(noiseEst[..]), old(overlap[..])), in0[pos..pos + p.N()], p);
      && GateState(newThreshold, noiseEst[..], overlap[..]) == f.state
      && output[..len] == AddAt(old(output[..len]), pos, f.contribution)
      && output[len..] == old(output[len..])
  {
    var n := window.Length;
    assert in0[pos..pos + p.N()] == input[pos..pos + n];
    var energy := MeanSquare(input, pos, n);
    newThreshold := threshold;
    if energy < newThreshold {
      newThreshold := (1.0 - Gamma) * newThreshold + Gamma * energy;
    }
    var silent := energy < newThreshold;
    assert Classify(threshold, Energy(input[pos..pos + n])) == Vad(newThreshold, silent);
    FilterFrame(input, pos, threshold, silent, window, noiseEst, overlap, hop,
                inBuf, outBins, floorGain, output, len, d);
    assert p == Params(window[..], hop as nat, floorGain, d);
  }

  /** Everything of one frame after the silence decision, over the engine's
      buffers: windowing, transform, minima tracking, gating, inverse
      transform and overlap-add (noisereduce.c:133-187). */
  method FilterFrame(input: array<real>, pos: int, ghost threshold: real, silent: bool,
                     window: array<real>, noiseEst: array<real>, overlap: array<real>, hop: int,
                     inBuf: array<real>, outBins: array<Cpx>, floorGain: real,
                     output: array<real>, len: int, d: Dsp)
    requires d.Valid()
    requires Workspace(input, output, len, window, noiseEst, overlap, hop, inBuf, outBins)
    requires 0 <= pos && pos + window.Length <= len
    requires silent == Classify(threshold, Energy(input[pos..pos + window.Length])).silent
    modifies noiseEst, overlap, output, inBuf, outBins
    ensures var f := FrameStep(GateState(threshold, old(noiseEst[..]), old(overlap[..])),
                               old(input[pos..pos + window.Length]),
                               Params(window[..], hop as nat, floorGain, d));
      && noiseEst[..] == f.state.noise && overlap[..] == f.state.overlap
      && output[..len] == AddAt(old(output[..len]), pos, f.contribution)
      && output[len..] == old(output[len..])
  {
    var n := window.Length;
    ghost var frame := input[pos..pos + n];
    ghost var noise0, overlap0 := noiseEst[..], overlap[..];
    ApplyWindow(input, pos, window, inBuf);
    var bins := d.fwd(inBuf[..]);
    GateBins(noiseEst, bins, silent, floorGain, outBins, d);
    var time := d.inv(n, outBins[..]);
    OverlapAdd(time, window, overlap, hop, output, pos, len);
    ghost var f := FrameStep(GateState(threshold, noise0, overlap0), frame, Params(window[..], hop as nat, floorGain, d));
    assert noiseEst[..] == NoiseAfter(noise0, bins, silent, d) == f.state.noise;
    assert time == d.inv(n, Gated(bins, noiseEst[..], floorGain));
    assert overlap[..] == f.state.overlap;
    assert f.contribution == Synthesis(time, window[..], overlap0);
  }

  /** The raw frame at `pos` times the window, into `inBuf`
      (noisereduce.c:133-135). */
  method ApplyWindow(input: array<real>, pos: int, window: array<real>, inBuf: array<real>)
    requires 0 <= pos && pos + window.Length <= input.Length && inBuf.Length == window.Length
    requires inBuf != input && inBuf != window
    modifies inBuf
    ensures inBuf[..] == Windowed(input[pos..pos + window.Length], window[..])
  {
    for i := 0 to window.Length
      invariant forall k :: 0 <= k < i ==> inBuf[k] == input[pos + k] * window[k]
    {
      inBuf[i] := input[pos + i] * window[i];
    }
    ghost var frame := input[pos..pos + window.Length];
    forall k | 0 <= k < window.Length ensures inBuf[k] == Windowed(frame, window[..])[k] {
      assert frame[k] == input[pos + k];
    }
  }

  /** Minima tracking and Wiener gating of every bin (noisereduce.c:141-166). */
  method GateBins(noiseEst: array<real>, bins: seq<Cpx>, silent: bool, floorGain: real, outBins: array<Cpx>, d: Dsp)
    requires |bins| == noiseEst.Length == outBins.Length
    modifies noiseEst, outBins
    ensures noiseEst[..] == NoiseAfter(old(noiseEst[..]), bins, silent, d)
    ensures outBins[..] == Gated(bins, noiseEst[..], floorGain)
  {
    ghost var noise := NoiseAfter(old(noiseEst[..]), bins, silent, d);
    ghost var gated := Gated(bins, noise, floorGain);
    for j := 0 to noiseEst.Length
      invariant forall k :: 0 <= k < j ==> noiseEst[k] == noise[k]
      invariant forall k :: j <= k < noiseEst.Length ==> noiseEst[k] == old(noiseEst[k])
      invariant forall k :: 0 <= k < j ==> outBins[k] == gated[k]
    {
      var mag2 := Mag2(bins[j]);
      if silent {
        var noise2 := noiseEst[j] * noiseEst[j];
        if mag2 < noise2 {
          noiseEst[j] := d.sqrt(mag2);
        }
      }
      assert noiseEst[j] == noise[j];
      var gain := WienerGain(mag2, noiseEst[j], floorGain);
      outBins[j] := Scale(bins[j], gain);
    }
    assert noiseEst[..] == noise;
  }

  /** Re-windowing, accumulation into the output and the new tail
      (noisereduce.c:172-187). */
  method OverlapAdd(time: seq<real>, window: array<real>, overlap: array<real>, hop: int,
                    output: array<real>, pos: int, len: int)
    requires |time| == window.Length == overlap.Length && 0 < hop <= window.Length
    requires 0 <= pos && pos + window.Length <= len <= output.Length
    requires output != overlap && output != window && overlap != window
    modifies output, overlap
    ensures overlap[..] == Tail(time, window[..], hop)
    ensures output[..len] == AddAt(old(output[..len]), pos, Synthesis(time, window[..], old(overlap[..])))
    ensures output[len..] == old(output[len..])
  {
    Accumulate(time, window, overlap, output, pos, len);
    ShiftTail(time, window, overlap, hop);
  }

  /** Adds the re-windowed samples and the carried tail into the output,
      clearing the tail (noisereduce.c:172-179). */
  method Accumulate(time: seq<real>, window: array<real>, overlap: array<real>,
                    output: array<real>, pos: int, len: int)
    requires |time| == window.Length == overlap.Length
    requires 0 <= pos && pos + window.Length <= len <= output.Length
    requires output != overlap && output != window && overlap != window
    modifies output, overlap
    ensures overlap[..] == Zeros(window.Length)
    ensures output[..len] == AddAt(old(output[..len]), pos, Synthesis(time, window[..], old(overlap[..])))
    ensures output[len..] == old(output[len..])
  {
    var n := window.Length;
    ghost var synthesis := Synthesis(time, window[..], overlap[..]);
    for i := 0 to n
      invariant forall k :: 0 <= k < i ==> overlap[k] == 0.0
      invariant forall k :: i <= k < n ==> overlap[k] == old(overlap[k])
      invariant forall k :: 0 <= k < output.Length ==>
        output[k] == if pos <= k < pos + i then old(output[k]) + synthesis[k - pos] else old(output[k])
    {
      var val := (time[i] / (n as real)) * window[i];
      var outval := val + overlap[i];
      assert outval == synthesis[i];
      output[pos + i] := output[pos + i] + outval;
      overlap[i] := 0.0;
    }
    assert overlap[..] == Zeros(n);
    ghost var added := AddAt(old(output[..len]), pos, synthesis);
    forall k | 0 <= k < len ensures output[k] == added[k] {
    }
    assert output[..len] == added;
  }

  /** Rewrites the tail: the samples from the hop on, moved to the front,
      then zeros (noisereduce.c:181-187). */
  method ShiftTail(time: seq<real>, window: array<real>, overlap: array<real>, hop: int)
    requires |time| == window.Length == overlap.Length && 0 < hop <= window.Length
    requires overlap != window
    modifies overlap
    ensures overlap[..] == Tail(time, window[..], hop)
  {
    var n := window.Length;
    ghost var tail := Tail(time, window[..], hop);
    var shift := n - hop;
    for i := 0 to shift
      invariant forall k :: 0 <= k < i ==> overlap[k] == tail[k]
    {
      overlap[i] := (time[i + hop] / (n as real)) * window[i + hop];
    }
    for i := shift to n
      invariant forall k :: 0 <= k < i ==> overlap[k] == tail[k]
    {
      overlap[i] := 0.0;
    }
  }

  /** Mean of the squared raw samples of the frame at `pos`
      (noisereduce.c:117-123). */
  method MeanSquare(input: array<real>, pos: int, n: int) returns (e: real)
    requires 0 <= pos && 0 < n && pos + n <= input.Length
    ensures e == Energy(input[pos..pos + n])
  {
    e := 0.0;
    for i := 0 to n
      invariant e == SumSquares(input[pos..pos + i])
    {
      assert input[pos..pos + i + 1][..i] == input[pos..pos + i];
      e := e + input[pos + i] * input[pos + i];
    }
    e := e / (n as real);
  }

  /** make_hann_window (noisereduce.c:12-16), with the cosine formula abstract. */
  method MakeHannWindow(window: array<real>, d: Dsp)
    modifies window
    ensures window[..] == HannWindow(window.Length, d)
  {
    for i := 0 to window.Length
      invariant forall k :: 0 <= k < i ==> window[k] == d.hann(window.Length, k)
    {
      window[i] := d.hann(window.Length, i);
    }
  }

  /** spectral_gate_init (noisereduce.c:22-69): null for a missing or
      rejected configuration; otherwise a fresh engine with the Hann window,
      every noise bin at the baseline and a silent tail. */
  method Init(config: Option<Config>, d: Dsp) returns (spd: SpectralGate?)
    ensures spd == null <==> config.None? || !Accepted(config.value)
    ensures spd != null ==>
      && fresh(spd) && fresh(spd.Buffers()) && spd.Valid() && spd.initialized
      && spd.config == config.value
      && spd.window[..] == HannWindow(config.value.frameSize, d)
      && spd.noiseEst[..] == seq(config.value.frameSize / 2 + 1, _ => Baseline)
      && spd.overlap[..] == Zeros(config.value.frameSize)
  {
    if config.None? || config.value.frameSize <= 0 || config.value.hopSize <= 0
       || config.value.hopSize > config.value.frameSize {
      return null;
    }
    var c := config.value;
    spd := new SpectralGate.Calloc();
    spd.config := c;
    spd.window := new real[c.frameSize];
    spd.noiseEst := new real[c.frameSize / 2 + 1](_ => 0.0);
    spd.overlap := new real[c.frameSize](_ => 0.0);
    var overlap := spd.overlap;
    forall k | 0 <= k < overlap.Length {
      overlap[k] := 0.0;
    }
    MakeHannWindow(spd.window, d);
    var noiseEst := spd.noiseEst;
    for i := 0 to c.frameSize / 2 + 1
      modifies noiseEst
      invariant forall k :: 0 <= k < i ==> noiseEst[k] == Baseline
    {
      noiseEst[i] := Baseline;
    }
    spd.initialized := true;
  }

  /** spectral_gate_free (noisereduce.c:71-81): nothing for a null engine;
      otherwise every buffer that is present, and the engine itself. */
  method Free(spd: SpectralGate?) returns (released: set<object>)
    ensures spd == null ==> released == {}
    ensures spd != null ==> released == spd.Buffers() + {spd}
  {
    if spd == null {
      return {};
    }
    released := {};
    if spd.window != null {
      released := released + {spd.window};
    }
    if spd.noiseEst != null {
      released := released + {spd.noiseEst};
    }
    if spd.overlap != null {
      released := released + {spd.overlap};
    }
    released := released + {spd};
  }

  /** spectral_gate_start (noisereduce.c:83-198). Fails with -1, touching
      nothing, for a null or uninitialised engine or a null buffer.
      Otherwise zeroes `output[..numSamples]`, runs the frame loop and
      returns 0: the engine's threshold, noise estimate and tail, and the
      output, are then exactly what `Process` gives, and the input is read only. */
  method Start(spd: SpectralGate?, input: array?<real>, output: array?<real>, numSamples: int, d: Dsp)
    returns (status: int)
    requires d.Valid() && 0 <= numSamples
    requires spd != null ==> spd.Valid()
    requires input != null ==> numSamples <= input.Length
    requires output != null ==> numSamples <= output.Length
    requires input != null && output != null ==> input != output
    requires spd != null && input != null ==> input !in spd.Buffers()
    requires spd != null && output != null ==> output !in spd.Buffers()
    modifies spd, output, if spd != null then {spd.noiseEst, spd.overlap} else {}
    ensures status == -1 <==> spd == null || !spd.initialized || input == null || output == null
    ensures status == -1 || status == 0
    ensures input != null ==> unchanged(input)
    ensures status == -1 && spd != null ==> unchanged(spd)
    ensures status == -1 && output != null ==> unchanged(output)
    ensures status == -1 && spd != null && spd.noiseEst != null ==> unchanged(spd.noiseEst)
    ensures status == -1 && spd != null && spd.overlap != null ==> unchanged(spd.overlap)
    ensures status == 0 ==>
      && spd.Valid() && spd.SameShape()
      && var r := Process(old(spd.State()), old(input[..numSamples]), old(spd.ParamsFor(d)));
         && spd.State() == r.state
         && output[..numSamples] == r.output
         && output[numSamples..] == old(output[numSamples..])
  {
    if spd == null || !spd.initialized || input == null || output == null {
      return -1;
    }
    var n := spd.config.frameSize;
    var floorGain := d.dbToGain(spd.config.noiseFloor);
    ghost var s0, in0, p := spd.State(), input[..numSamples], spd.ParamsFor(d);

    forall k | 0 <= k < numSamples {
      output[k] := 0.0;
    }
    assert output[..numSamples] == Zeros(numSamples);
    assert spd.State() == s0 && spd.ParamsFor(d) == p && input[..numSamples] == in0;

    var inBuf := new real[n];
    var outBins := new Cpx[n / 2 + 1];
    var threshold := FrameLoop(input, output, numSamples, spd.config.silenceThreshold,
                               spd.window, spd.noiseEst, spd.overlap, spd.config.hopSize,
                               inBuf, outBins, floorGain, d, s0, in0, Zeros(numSamples), p);
    spd.config := spd.config.(silenceThreshold := threshold);
    return 0;
  }

  /** The frame loop (noisereduce.c:114-188): a frame at every multiple of
      the hop while a whole frame fits, threading the threshold through. */
  method FrameLoop(input: array<real>, output: array<real>, len: int, threshold: real,
                   window: array<real>, noiseEst: array<real>, overlap: array<real>, hop: int,
                   inBuf: array<real>, outBins: array<Cpx>, floorGain: real, d: Dsp,
                   ghost s0: GateState, ghost in0: seq<real>, ghost out0: seq<real>, ghost p: Params)
    returns (newThreshold: real)
    requires d.Valid()
    requires Workspace(input, output, len, window, noiseEst, overlap, hop, inBuf, outBins)
    requires s0 == GateState(threshold, noiseEst[..], overlap[..])
    requires in0 == input[..len] && out0 == output[..len]
    requires p == Params(window[..], hop as nat, floorGain, d)
    modifies noiseEst, overlap, output, inBuf, outBins
    ensures Processed(GateState(newThreshold, noiseEst[..], overlap[..]), output[..len])
            == RunTo(s0, in0, out0, p, LoopEnd(len, p.N(), p.hop, 0))
    ensures output[len..] == old(output[len..])
  {
    var n := window.Length;
    newThreshold := threshold;
    var pos := 0;
    while pos + n <= len
      invariant OnGrid(pos, hop) && (pos == 0 || pos - hop + n <= len)
      invariant Processed(GateState(newThreshold, noiseEst[..], overlap[..]), output[..len]) == RunTo(s0, in0, out0, p, pos)
      invariant output[len..] == old(output[len..])
      decreases len - pos
    {
      newThreshold := NextFrame(input, output, len, pos, newThreshold, window, noiseEst, overlap, hop,
                                inBuf, outBins, floorGain, d, s0, in0, out0, p);
      pos := pos + hop;
    }
    LoopEndAt(len, p.N(), p.hop, 0, pos);
  }

  /** One iteration of the frame loop: the frame at `pos` takes the
      state reached after the frames before it to the state after it. */
  method NextFrame(input: array<real>, output: array<real>, len: int, pos: int, threshold: real,
                   window: array<real>, noiseEst: array<real>, overlap: array<real>, hop: int,
                   inBuf: array<real>, outBins: array<Cpx>, floorGain: real, d: Dsp,
                   ghost s0: GateState, ghost in0: seq<real>, ghost out0: seq<real>, ghost p: Params)
    returns (newThreshold: real)
    requires d.Valid()
    requires Workspace(input, output, len, window, noiseEst, overlap, hop, inBuf, outBins)
    requires 0 <= pos && pos + window.Length <= len
    requires p == Params(window[..], hop as nat, floorGain, d)
    requires p.Fits(s0) && in0 == input[..len] && |out0| == len
      && OnGrid(pos, hop) && (pos == 0 || pos - hop + window.Length <= len)
      && Processed(GateState(threshold, noiseEst[..], overlap[..]), output[..len]) == RunTo(s0, in0, out0, p, pos)
    modifies noiseEst, overlap, output, inBuf, outBins
    ensures OnGrid(pos + p.hop, p.hop)
    ensures Processed(GateState(newThreshold, noiseEst[..], overlap[..]), output[..len]) == RunTo(s0, in0, out0, p, pos + p.hop)
    ensures output[len..] == old(output[len..])
  {
    newThreshold := ProcessFrame(input, pos, threshold, window, noiseEst, overlap, hop,
                                 inBuf, outBins, floorGain, output, len, d, p, in0);
    RunToNext(s0, in0, out0, p, pos, Processed(GateState(newThreshold, noiseEst[..], overlap[..]), output[..len]));
  }
}
