# Spectral-gate noise reduction, modelled in Dafny

This project models the spectral-gate engine of `src/noisereduce.c` and the
part of `src/main.c` that drives it over an interleaved buffer of PCM samples.

The engine (`SpectralGateData`) owns three buffers:

- a Hann window of length N;
- a per-bin noise estimate of length N/2+1;
- an overlap tail of length N.

It also keeps a copy of its configuration, whose silence threshold it
rewrites as it runs. `spectral_gate_start` walks the input in frames of N
samples at positions 0, H, 2H, … for as long as a whole frame fits. For each
frame it:

1. takes the mean squared raw sample (the frame energy);
2. lowers the silence threshold towards that energy when the energy is
   below it, and calls the frame silent when the energy is below the new
   threshold;
3. windows the frame and transforms it;
4. on silent frames, lowers each bin's noise estimate to the bin's
   magnitude when the bin is quieter;
5. scales each bin by the Wiener gain SNR/(1+SNR), held at or above the
   noise-floor gain;
6. transforms back, re-windows, adds the result and the old tail into the
   output, and rewrites the tail.

The driver denoises a mono buffer in one call. For more channels it splits
the buffer channel by channel, runs the same engine on each channel in turn
with no reset in between, and weaves the results back into a zeroed buffer.

The project has five modules:

- `Numerics` (numerics.dfy): complex bins, zero sequences, and `Dsp`. `Dsp`
  bundles the collaborators the engine calls but that are not modelled: the
  forward and inverse real FFT, the square root, the Hann cosine and the
  dB-to-gain conversion. They enter as function values. Their lengths and
  the facts the lemmas need are assumptions stated as predicates
  (`Valid`, `ExactSqrt`, `SilentAt`).
- `GateSpec` (gate_spec.dfy): one frame (`FrameStep`), the frame loop up to
  a position (`RunTo`) and a whole call (`Process`), as functions over
  sequences of reals.
- `GateLemmas` (gate_lemmas.dfy): what the loop does over any number of
  frames. This covers the threshold, the noise estimate, the positions
  written, silence, and the doubled tail.
- `NoiseReduce` (noisereduce.dfy): the `SpectralGate` class with its array
  fields, and `Init`, `Free` and `Start` with the loops of the C code. The
  imperative code is proved to compute exactly `Process` and to leave the
  engine in the state `Process` gives.
- `Channels` (channels.dfy): the deinterleave and reinterleave loops, the
  channel loop that reuses one engine, and the layout round trip.

The model follows the code as written:

- `alpha` is carried in the configuration but never used.
- `noise_decay` is never read.
- There is no hysteresis classifier, no EMA noise tracker and no hard gate.
- A final partial frame is not zero-padded. It is not processed at all, and
  the output past the last whole frame stays zero (`ProcessTailIsZero`).
- The header says a negative silence threshold turns on auto-calibration.
  The code has none: with a threshold at or below zero no frame is ever
  silent, so neither the threshold nor the noise estimate ever moves
  (`NoSilenceBelowZeroThreshold`).
- Each frame's tail is added to the output twice. The frame's own `+=`
  covers all N positions, and the next frame adds the same values again
  through `overlap`. `TailAddedTwice` states this.
- The threshold, the noise estimate and the tail persist across calls and
  from channel to channel.

## Model

| member | source | states |
|---|---|---|
| GateSpec.SumSquares | src/noisereduce.c:117-122 | the running sum of squared samples is never negative |
| GateSpec.Energy | src/noisereduce.c:117-123 | the frame energy (mean of the raw squared samples, window not applied) is never negative |
| GateSpec.Classify | src/noisereduce.c:125-130 | the frame is silent exactly when its energy is below the threshold held before it; the threshold never rises; on a silent frame it becomes 0.8·old + 0.2·energy and stays above the energy; otherwise it is unchanged |
| GateSpec.Mag2 | src/noisereduce.c:142-144 | a bin's power re²+im² is never negative |
| GateSpec.TrackMin | src/noisereduce.c:146-153 | a bin's estimate changes only on a silent frame whose bin power is below the estimate squared, and then becomes the square root of that power |
| GateSpec.TrackMinBounds | src/noisereduce.c:146-153 | with an exact square root, a non-negative estimate stays non-negative and never grows, and a replaced estimate squared is the bin power |
| GateSpec.ClampedSnr | src/noisereduce.c:156-158 | the SNR is never negative, and it is zero exactly when the bin power is at or below the noise power |
| GateSpec.WienerGain | src/noisereduce.c:160-161 | the gain is at least the floor gain and at least 0; it is below 1 when the floor gain is, at most 1 when the floor gain is at most 1, and equal to a non-negative floor gain on a bin at or below the noise |
| GateSpec.Scale | src/noisereduce.c:163-164 | both parts of a bin are scaled by the same gain: the power scales by gain², the scaled bin is parallel to the original, and its projection on the original is gain times the original's power, so the factor is the gain itself |
| GateSpec.Windowed | src/noisereduce.c:133-135 | the transform input: one value per sample, sample i of the raw frame times window entry i |
| GateSpec.NoiseAfter | src/noisereduce.c:141-153 | one estimate per bin, each the bin's tracked minimum after the frame |
| GateLemmas.NoiseAfterNotSilent | src/noisereduce.c:146-153 | a frame that is not silent leaves the whole noise estimate as it was |
| GateSpec.Gated | src/noisereduce.c:155-164 | one bin per bin: each bin scaled by its Wiener gain against the estimate updated in the same frame |
| GateSpec.Synthesis | src/noisereduce.c:172-176 | the N values added at `pos`: inverse-transform sample i divided by N, times window entry i, plus entry i of the incoming tail |
| GateSpec.Tail | src/noisereduce.c:178-187 | the tail after the frame: N values, the re-windowed samples from the hop on moved to the front, then zeros |
| GateLemmas.TailZeroFill | src/noisereduce.c:185-187 | the last H entries of the new tail are zero |
| GateSpec.AddAt | src/noisereduce.c:176 | the `+=` into the output: the contribution added element-wise from `pos` on, the output keeping its length |
| GateSpec.OnGrid | src/noisereduce.c:114-189 | the positions the loop visits: 0, and a hop past any position it visits |
| GateSpec.OnGridIsMultiple | src/noisereduce.c:114-189 | the positions the loop visits are exactly the multiples of the hop |
| GateSpec.FrameStep | src/noisereduce.c:116-187 | one frame keeps the buffer lengths init gave and contributes exactly N values |
| GateSpec.LoopEnd | src/noisereduce.c:115-189 | the loop stops at a multiple of the hop where the frame no longer fits, and the frame before it did fit |
| GateSpec.GridGap | src/noisereduce.c:189 | two frame positions are at least a hop apart |
| GateSpec.LoopEndAt | src/noisereduce.c:115-189 | a frame position whose frame does not fit, after one whose frame did, is where the loop stops |
| GateSpec.RunTo | src/noisereduce.c:114-190 | the frames before a position keep the buffer lengths and the output length |
| GateSpec.RunToNext | src/noisereduce.c:114-190 | running one more frame from the state after the frames before `pos` gives the state after the frame at `pos` |
| GateSpec.Process | src/noisereduce.c:96-190 | a whole call keeps the buffer lengths and gives an output as long as the input |
| GateLemmas.RunThresholdNonIncreasing | src/noisereduce.c:126-128 | over any number of frames the threshold never rises |
| GateLemmas.ProcessThresholdNonIncreasing | src/noisereduce.c:126-128 | over a whole call the threshold never rises |
| GateLemmas.FrameNoiseNonIncreasing | src/noisereduce.c:146-153 | within one frame a non-negative noise bin stays non-negative and never grows |
| GateLemmas.RunNoiseNonIncreasing | src/noisereduce.c:146-153 | over any number of frames a non-negative noise bin stays non-negative and never grows |
| GateLemmas.NoiseStaysInBaselineRange | src/noisereduce.c:63-65 | starting at init's baseline 1e-3 or below, every noise bin stays within [0, 1e-3] after a call |
| GateLemmas.FrameNoiseMovesOnlyWhenSilent | src/noisereduce.c:146-153 | the noise estimate changes only on a frame whose energy is below the threshold held before it |
| GateLemmas.NoSilenceBelowZeroThreshold | src/noisereduce.c:126-130 | with a threshold at or below zero, no frame moves the threshold or the noise estimate |
| GateLemmas.FrameForgetsOverlap | src/noisereduce.c:178-187 | a frame's new state does not depend on the tail it received |
| GateLemmas.RunWritesOnlyFrames | src/noisereduce.c:172-176 | the loop writes no output position at or after the end of the last frame it ran |
| GateLemmas.LoopEndFrom | src/noisereduce.c:115-189 | from a position whose frame fits, the loop stops at pos + ((n−N−pos)/H + 1)·H |
| GateLemmas.LastFrameEnd | src/noisereduce.c:115 | the end of the last frame lies within the input and less than one hop before its end |
| GateLemmas.LastFrameEndClosedForm | src/noisereduce.c:115-189 | the last frame ends at ((n−N)/H)·H + N when one frame fits, else at 0 |
| GateLemmas.ProcessTailIsZero | src/noisereduce.c:96-115 | the output is zero from the end of the last whole frame on, so an input shorter than a frame gives an all-zero output |
| GateLemmas.SilentSpectrum | src/noisereduce.c:133-164 | a silent frame windows, transforms and gates to all-zero bins, whatever the noise estimate and the silence decision |
| GateLemmas.SilentSynthesis | src/noisereduce.c:172-187 | a silent inverse transform with a silent incoming tail adds zeros and leaves a silent tail |
| GateLemmas.AddZeros | src/noisereduce.c:176 | adding zeros into the output leaves it as it was |
| GateLemmas.SilentFrame | src/noisereduce.c:133-187 | a silent frame entered with a silent tail leaves the output as it was and leaves a silent tail |
| GateLemmas.SilenceKeepsOutput | src/noisereduce.c:114-190 | over silent input with a silent tail, the loop leaves the output as it was and the tail silent |
| GateLemmas.SilenceInSilenceOut | src/noisereduce.c:96-190 | a call on silent input that starts with a silent tail outputs zeros |
| GateLemmas.TailAddedTwice | src/noisereduce.c:172-183 | a sample covered by two consecutive frames receives the earlier frame's tail twice |
| NoiseReduce.Accepted | src/noisereduce.c:23 | init's only checks: frame size above 0, hop above 0 and hop at most the frame size; when they hold, the shift N−H lies in [0, N) and the noise buffer is not empty |
| NoiseReduce.HannWindow | src/noisereduce.c:12-16 | the window init fills: N entries, entry i the window formula at index i |
| NoiseReduce.SpectralGate.Calloc | src/noisereduce.c:27 | the fresh engine has a zero configuration, null buffers and is not initialised |
| NoiseReduce.Init | src/noisereduce.c:22-69 | returns null exactly for a missing configuration, frame size ≤ 0, hop ≤ 0 or hop > frame size (no power-of-two check); otherwise a fresh initialised engine with the configuration, the Hann window, N/2+1 noise bins at 1e-3 and N zero tail values |
| NoiseReduce.MakeHannWindow | src/noisereduce.c:12-16 | every window entry is the window formula at its index |
| NoiseReduce.Free | src/noisereduce.c:71-81 | a null engine releases nothing; otherwise every buffer that is present and the engine itself are released |
| NoiseReduce.Start | src/noisereduce.c:83-198 | −1 exactly for a null or uninitialised engine or a null buffer, changing nothing; otherwise 0, the input unchanged, `output[..n]` and the engine's threshold, noise estimate and tail equal to `Process` of the old state, and the rest of the output unchanged |
| NoiseReduce.FrameLoop | src/noisereduce.c:114-190 | the loop computes `RunTo` up to where it stops, in place, and writes nothing past `num_samples` |
| NoiseReduce.NextFrame | src/noisereduce.c:115-189 | one iteration takes the state after the frames before `pos` to the state after the frame at `pos` |
| NoiseReduce.ProcessFrame | src/noisereduce.c:116-187 | the frame at `pos` updates threshold, noise estimate, tail and output exactly as `FrameStep` |
| NoiseReduce.FilterFrame | src/noisereduce.c:133-187 | the frame after the silence decision updates noise estimate, tail and output exactly as `FrameStep` |
| NoiseReduce.MeanSquare | src/noisereduce.c:117-123 | returns the frame energy of the frame at `pos` |
| NoiseReduce.ApplyWindow | src/noisereduce.c:133-135 | the transform input is the raw frame times the window |
| NoiseReduce.GateBins | src/noisereduce.c:141-166 | the noise estimate becomes the tracked minimum of every bin and the output bins are the gated bins against the new estimate |
| NoiseReduce.OverlapAdd | src/noisereduce.c:172-187 | the output gains the re-windowed samples plus the old tail at `pos..pos+N`, and the tail becomes the samples from the hop on, then zeros |
| NoiseReduce.Accumulate | src/noisereduce.c:172-179 | the output gains the re-windowed samples plus the old tail at `pos..pos+N`, and the tail is cleared |
| NoiseReduce.ShiftTail | src/noisereduce.c:181-187 | the tail becomes the re-windowed samples from the hop on, moved to the front, then zeros |
| Channels.SlotBound | src/main.c:85-87 | sample `i` of channel `ch` sits inside the whole channels |
| Channels.SlotDivMod | src/main.c:85-87 | the slot `i*c + ch` gives back `i` and `ch` |
| Channels.BelowSlots | src/main.c:70 | a slot lies in the whole channels exactly when its sample index is below the samples per channel |
| Channels.SlotsDisjoint | src/main.c:101-103 | distinct channels write disjoint slots |
| Channels.SamplesPerChannel | src/main.c:70 | the truncated quotient: the whole channels fit in the buffer and fewer than `channels` samples are left over |
| Channels.ChannelOf | src/main.c:85-87 | one channel has `samples_per_channel` samples |
| Channels.Scatter | src/main.c:101-103 | weaving a channel back keeps the buffer length |
| Channels.ScatterAt | src/main.c:101-103 | weaving writes sample `i` of the channel at slot `i*c + ch` |
| Channels.ScatterElsewhere | src/main.c:101-103 | weaving leaves other channels' slots and slots past the channel as they were |
| Channels.ChannelsUpTo | src/main.c:71-106 | channels run one after another on one engine keep the buffer lengths and the output length |
| Channels.ChannelsUpToNext | src/main.c:71-106 | one more channel from the state after the channels before it gives the state after it |
| Channels.Denoise | src/main.c:57-107 | the driver's result keeps the buffer lengths and gives an output as long as the input |
| Channels.ChannelsSlot | src/main.c:89-103 | slot `i*c + ch` of the woven output is sample `i` of channel `ch`'s output, computed from the state the earlier channels left |
| Channels.ChannelsLeaveRemainder | src/main.c:70-103 | slots past the whole channels keep their calloc zero |
| Channels.ChannelsThresholdNonIncreasing | src/main.c:71-89 | the threshold carried from channel to channel never rises |
| Channels.ChannelsNoiseInRange | src/main.c:71-89 | starting at the baseline, the noise estimate carried from channel to channel stays within [0, 1e-3] |
| Channels.Reassembled | src/main.c:101-103 | weaving channels back keeps the buffer length |
| Channels.ReassembledAt | src/main.c:85-103 | after weaving back unprocessed channels, a slot holds the input sample when its channel was woven back and zero otherwise |
| Channels.SplitThenWeave | src/main.c:70-103 | splitting into channels and weaving them all back gives the input on the whole channels and zeros after them |
| Channels.Deinterleave | src/main.c:85-87 | `channel_in[i] == pcm_data[i*channels + ch]` for every `i` below the samples per channel |
| Channels.Reinterleave | src/main.c:101-103 | `processed_data[i*channels + ch] == channel_out[i]` for every `i`, and every other slot unchanged |
| Channels.DenoiseBuffer | src/main.c:47-107 | a zeroed buffer, then one call for mono or the channel loop otherwise; the buffer and the engine state are what `Denoise` gives |
| Channels.DenoiseChannels | src/main.c:69-106 | the channel loop leaves the buffer and the engine in the state `ChannelsUpTo` gives after every channel |
| Channels.DenoiseChannel | src/main.c:72-105 | one channel is split out, run from the engine's current state, and woven back: the state after channel `ch` |

## Left out

- Allocation failures (calloc, malloc, `kiss_fftr_alloc` and the temporary buffers) are not modelled. Init fails only on the configuration checks, and Start fails only on the null checks. `perror`/`fprintf` output and the frees on those paths are left out too.
- The forward and inverse real FFT (kiss_fftr), `sqrtf`, the Hann cosine and `powf` in `db_to_gain` are abstract functions in `Dsp`. Only their output lengths and a positive gain are assumed for the engine. The exact square root is assumed only by the noise-range lemmas. Zero in and zero out are assumed only by the silence lemmas.
- The window formula's division by zero when the frame size is 1 is not modelled.
- Floating point is modelled as real arithmetic: no rounding, NaN or overflow.
- `int`/`long` widths are not modelled: no overflow of `pos + frame_size`, and no narrowing of `num_samples`.
- NoiseReduce.Free: models which objects are released. It does not model deallocation or use after free.
- NoiseReduce.FrameLoop: the threshold lives in a local during the loop and is written back to the configuration when the loop ends. The C code writes `spd->config.silence_threshold` inside every frame. No other code runs between frames, so the state seen afterwards is the same.
- NoiseReduce.Init: returns an engine for every odd frame size. The real-FFT setup `kiss_fftr_alloc` (noisereduce.c:35-36) is not part of this model, and it refuses an odd size, so the C code returns NULL there through noisereduce.c:37-42. The model does not capture that rejection.
- NoiseReduce.Start: requires `0 <= numSamples`, input and output to be distinct arrays, and neither to be one of the engine's own buffers. Every call in `src/main.c` meets these. A negative count, an aliased input and output (the memset at noisereduce.c:96 would then clear the input before the loop reads it), and a buffer shared with the engine are not modelled.
- Channels.DenoiseBuffer: requires `0 < channels`. This excludes `channels == 0`, where the driver divides by zero at main.c:70, and any negative channel count. Neither is modelled.
- The mp3 decoding and encoding, file I/O, argument handling and printing in `src/main.c` and `src/mp3_utils.c` are not part of this model.
