# The SoX resampler and the promise, verified

This project models the constant-rate resampler in `soxr-sys/src` and the `Promise` of
`livekit-protocol`, and proves what they are for.  Samples are exact reals; positions, counts and
table indices are exact integers; every array index is proved in range.

From the bottom up:

* **Transforms** (`Complex`, `BitReversal`, `Fft*`, `TableSizes`, `Convolution`, `Decimation`).  The
  in-place transforms of `fft4g.c` are methods over arrays of reals with the source's loops, tables and special cases.
  `cdft` and `rdft` are proved equal to the sums that the file's own documentation defines, for
  both signs and every power of two the local tables allow, and forward, multiply, backward to be
  circular convolution.  The trigonometric values are a function `turn`, with `turn(m)` standing for
  exp(2 pi i/m); all that is asked of it (`FftTables.IsTurn`) is that it lies on the unit circle,
  that a quarter of the way round is i, and that the roots of different orders nest.
* **Stages** (`Fifo`, `HalfBand`, `CubicStage`, `OverlapSave`, `Replication`, `DftStage`, `OneShot`).  Each
  kind of stage has a one-shot specification over the whole stream.  One theorem per kind says that
  any sequence of arrivals and calls, however cut up, computes it; the class beside it, with the
  fields and loops of the source, is proved to do one call of that run.
* **Pipeline** (`Accounts`, `Driver`, `StageKinds`, `ChainAccount`, `Rate`, `RateOutput`, `RateLimits`,
  `Fractions`, `StagePlan`, `DftFilter`, `PhaseDrift`, `SpectralStart`).  The recursive driver ends for
  any number of stages, and whatever it is asked for, in whatever amounts, the output is the composition of the stages' one-shot
  filters; the sample accounts are exact; the planning loop ends, conserves the ratio and plans the
  stages it should; the filter sizes keep the stages in step, or by how much they do not.
* **Concurrency** (`Ccrw2`, `FftCache`, `Promise`).  Step machines for any number of threads or
  tasks, with invariants over every interleaving.

## What does not hold as promised

Each of these is proved with the exact condition.

* `bitrv2conj` has a local table of 512 entries where `bitrv2` has 1024: it serves lengths up to
  2^21, not 2^23 (`FftReorder.TableFits`).  So does `cdft` with a negative sign; `rdft` is not
  affected.
* A thread that holds only the read lock writes `LSX_FFT_BR[0]` and `[1]` when its length and
  `FFT_LEN` are both 2.  The values it writes are those already there (`FftCache.CacheSafety`).  Two
  transforms of length 2 by one thread lead to it (`FftCache.ReaderTakesMakewt`).
* The first outputs of the cubic stage look back at a preloaded zero.  Those taken within the first
  sample interval reproduce a cubic polynomial just when they fall on the sample, or the polynomial
  is zero one sample earlier (`CubicStage.FirstOutputs`).
* With a cubic stage whose step is 8192 input samples or more, `_soxr_process` need not return: it
  goes on for ever just when each turn leaves a full queue and too few outputs
  (`RateLimits.EndlessIff`), so it does with 8191 samples in, or after a flush of any input shorter
  than a step that is worth a sample (`InputNeverReturns`, `FlushNeverReturns`; `RatioOf8192` is such
  a ratio).  A ratio below 2^-33 has the step 0, and three samples suffice (`ZeroNeverReturns`).
  Every call returns, whatever the calls before it, just when the step is neither 0 nor 8192 samples
  or more (`AlwaysReturnsIff`).
* The account of what is owed uses `io_ratio`, the stage the ratio rounded to a multiple of 2^-32.
  If it was rounded down, a long enough input makes more samples than it is worth; after the flush
  `samples_out` is then positive and a read is asked for a negative count (`OverdrawnRun`; 44100 to
  48000 is such a ratio, `CommonRatio`).  The account holds for inputs of every length just when
  the step was not rounded down, or is 0 (`AlwaysTightIff`), for inputs of n samples just when the
  stage can make no more of them than they are worth (`TightIff`).
* Zeros stuffed in the frequency domain take no account of `at`.  The stage stays in step just when
  the filter has one tap more than a multiple of L (`OverlapSave.SpectralDrift`, `InStepIff`).
  Linear phase is designed so; a filter of another phase with L = 2^p is so just when 2^(p-2) divides
  the number of fours its taps are cut in, thus always for L up to 4 and for L = 8 when that number
  is even (`PhaseDrift.PhaseInStepIff`).  With 1501 taps in a transform of 8192 points every block
  takes four places too many or too few (`EightDrifts`), and n blocks n times the excess
  (`DriftsByExcess`).
* In step or not, the values made there are those of a filter that begins at 0, `at` places early.
  They are the values of the time domain for every input just when `at` is 0 or nothing is heard
  (`SpectralStart.EarlyBy`, `SameValuesIff`); a run shows the difference (`ClickIsEarly`).
* Decimation by 2 or 4 in the frequency domain drops all but the lowest coefficients of the product
  of the spectra.  Each sample is the filter's less what those would have added
  (`DftStage.ThinnedLoses`); it is the filter's on every queue just when the filter's own spectrum
  vanishes from coefficient size/(2M) up (`ThinnedIffClear`, for L of 1; for whole blocks of data,
  `Decimation.ExactIffClear`).  Then a run is that of the time domain (`CalledRunIsRun`).
* The planner's tolerance admits the numerator 0 for a fraction of 2^-33 or less
  (`StagePlan.ZeroAcceptedIff`); there is then no plan to speak of (`StagePlan.Determine`).
* In `Promise::result` the last `unwrap` fails just when a future was dropped while it held the
  receiver or what it had received (`Promise.UnwrapFailsIffLost`); ten or eleven states of two
  tasks lead to it, although the promise is resolved (`Promise.FailingRun`).

## Model

| member | source | states |
|---|---|---|
| `FftReorder.Bitrv2` | soxr-sys/src/fft4g.c:712-810 | permutes the n/2 complex pairs by bit reversal, for every power of two from 8 to 2^23, and nothing beyond n |
| `FftReorder.ReorderedTwice` | soxr-sys/src/fft4g.c:712-810 | the reordering is its own inverse |
| `FftReorder.TableFits` | soxr-sys/src/fft4g.c:714-727 | the table's entries fit 1024 places just when n <= 2^23, and 512 just when n <= 2^21 |
| `FftReorder.Bitrv2Conj` | soxr-sys/src/fft4g.c:813-920 | the same permutation with every pair conjugated, up to 2^21 |
| `FftReorder.ReorderedConj` | soxr-sys/src/fft4g.c:813-920 | reordering with conjugation is conjugation after reordering |
| `FftReorder.ReversalTable` | soxr-sys/src/fft4g.c:718-727 | the doubling loop leaves the scaled reversals of the indices in the table |
| `FftPasses.Cft1st` | soxr-sys/src/fft4g.c:1023-1125 | the first radix-4 pass, block by block, equals the pass of the specification |
| `FftPasses.Cftmdl` | soxr-sys/src/fft4g.c:1128-1252 | the middle radix-4 passes, in the source's order of blocks, likewise |
| `FftPasses.Cftfsub` | soxr-sys/src/fft4g.c:923-970 | all passes together, with a last pass of radix 4 or 2 |
| `FftPasses.Cftbsub` | soxr-sys/src/fft4g.c:973-1020 | the conjugate of all passes |
| `FftTheorem.TwiddleIsPower` | soxr-sys/src/fft4g.c:1041-1124 | the factors fetched from the bit-reversed table are the powers of the root that a transform needs |
| `FftTheorem.FftIsDft` | soxr-sys/src/fft4g.c:32-38 | reordering followed by all passes is the documented sum, for every coefficient |
| `FftTables.Makewt` | soxr-sys/src/fft4g.c:661-687 | leaves the powers of the root in bit-reversed order, the second half filled by mirroring |
| `FftTables.Makect` | soxr-sys/src/fft4g.c:690-706 | leaves the half cosines that the real passes use |
| `FftTables.CosinesBalanced` | soxr-sys/src/fft4g.c:690-706 | c[k]^2 + c[nc-k]^2 is 1/4 |
| `FftReal.Rftfsub` | soxr-sys/src/fft4g.c:1255-1277 | the separating pass after the forward transform, pair by pair |
| `FftReal.Rftbsub` | soxr-sys/src/fft4g.c:1280-1304 | the joining pass before the backward one, with its conjugation |
| `FftReal.RealPassesCancel` | soxr-sys/src/fft4g.c:1255-1304 | joining after separating conjugates every element |
| `FftReal.RealPassesCancelBack` | soxr-sys/src/fft4g.c:1255-1304 | separating after joining likewise |
| `FftRealSpectrum.PackUnpack` | soxr-sys/src/fft4g.c:368-373 | the steps that pack and unpack a[0] and a[1] undo each other |
| `FftSpectrum.Orthogonal` | soxr-sys/src/fft4g.c:64-72 | the powers of a root sum to zero unless they are all one |
| `FftSpectrum.InverseTransform` | soxr-sys/src/fft4g.c:64-72 | transforming forward and backward multiplies by the length |
| `FftRealSpectrum.ForwardIsRealDft` | soxr-sys/src/fft4g.c:75-99 | the complex transform of adjacent pairs, separated and packed, is the documented real transform |
| `FftRealSpectrum.BackwardInverts` | soxr-sys/src/fft4g.c:75-118 | the backward steps return the data times half the length |
| `FftRealSpectrum.SpectrumDetermines` | soxr-sys/src/fft4g.c:75-118 | real data are determined by their packed spectrum |
| `FftInverse.ConjugateRoot` | soxr-sys/src/fft4g.c:32-38 | conjugating before and after the transform is the documented second case |
| `FftInverse.InverseIsSum` | soxr-sys/src/fft4g.c:75-84 | the documented inverse sum of a packed real spectrum is the data times half the length |
| `Fft.Cdft` | soxr-sys/src/fft4g.c:326-342 | the complex transform documented in lines 32-38, for either sign, with exp(2 pi i/n) or its conjugate, with lengths 2 and 4 and the table building |
| `Fft.Rdft` | soxr-sys/src/fft4g.c:345-382 | the real transform documented in lines 75-84, for either sign: the packed sums, and backward the sum of cosines and sines, cell by cell, which is also the inverse times half the length; the tables it leaves serve later calls, their sizes become those of TableSizes.Tables, and tables large enough are not written |
| `Fft.SpectrumOnto` | soxr-sys/src/fft4g.c:75-84 | every packed spectrum is that of some real data |
| `Convolution.OrderedConvolve` | soxr-sys/src/rdft.h:4-16 | multiplies packed spectra |
| `Convolution.ConvolutionTheorem` | soxr-sys/src/cr.c:145-146 | the transform of a circular convolution is the product of the transforms |
| `Convolution.ConvolveBlock` | soxr-sys/src/cr.c:138-146 | forward, multiply, backward is circular convolution times half the length |
| `Decimation.OrderedPartialConvolve` | soxr-sys/src/rdft.h:18-28 | the first n cells become the lower part of the product of two packed spectra, with the real part of coefficient n/2 packed in |
| `Decimation.LowerLoses` | soxr-sys/src/cr.c:163-166 | the short backward transform of that part is every M-th value of the long one, less the dropped coefficients' share and half of coefficient n/2 |
| `Decimation.ExactIffClear` | soxr-sys/src/cr.c:163-166 | for every block of data nothing is lost, of the first value or of any number, just when the filter's packed spectrum vanishes from coefficient n/2 up |
| `Fifos.Fifo.Reserve` | soxr-sys/src/fifo.h:41-67 | room at the end, the waiting items unchanged through moves and reallocations; the retry loop ends |
| `Fifos.Fifo.Write` | soxr-sys/src/fifo.h:69-76 | appends |
| `Fifos.Fifo.Read` | soxr-sys/src/fifo.h:97-108 | takes from the front, or fails and changes nothing |
| `Fifos.Fifo.TrimBy` | soxr-sys/src/fifo.h:85-90 | drops from the back |
| `Fifos.Fifo.TrimTo` | soxr-sys/src/fifo.h:78-83 | keeps a number of items from the front |
| `Fifos.Fifo.Occupancy` | soxr-sys/src/fifo.h:92-95 | counts the waiting items without a remainder |
| `Fifos.Fifo.Clear` | soxr-sys/src/fifo.h:36-39 | empties |
| `Fifos.Fifo.constructor` | soxr-sys/src/fifo.h:117-123 | begins empty, with items aligned |
| `HalfBand.FoldedIsWindow` | soxr-sys/src/half-fir.h:29-33 | the folded multiply-adds are a symmetric FIR sum over a window |
| `HalfBand.RunIsFilter` | soxr-sys/src/half-fir.h:38-50 | over any run the outputs are the first values of one centred filter at every second sample, and a call that is not cut short brings them up to date, odd occupancies included |
| `HalfBand.AllowedIff` | soxr-sys/src/half-fir.h:40-41 | a stream allows output q just when it is longer than 4*n + 2*q |
| `HalfBand.HalfStage.Call` | soxr-sys/src/half-fir.h:38-50 | one call does one step of that run; reading never fails |
| `HalfBand.HalfStage.Convolve` | soxr-sys/src/half-fir.h:29-33 | one output, with all reads inside the queue |
| `CubicStage.InterpolateExact` | soxr-sys/src/cr-core.c:57-61 | exact on polynomials of degree at most 3 |
| `CubicStage.RunIsInterpolation` | soxr-sys/src/cr-core.c:49-67 | over any run output k is taken at absolute position k*step/2^32 of the whole stream (AllowedWithin and RateOutput.TimeError say it with the number); queue, position and count follow from the stream and the number of outputs |
| `CubicStage.PolynomialExact` | soxr-sys/src/cr-core.c:56-62 | a sampled cubic comes out as itself at the output's time |
| `CubicStage.FirstOutputs` | soxr-sys/src/cr.c:395 | before the first whole sample, exactly when it does not |
| `CubicStage.AdvanceInside` | soxr-sys/src/cr-core.c:65-66 | the advance never exceeds the queue |
| `CubicStage.RoomEnough` | soxr-sys/src/cr-core.c:53-63 | the outputs of a call fit the room reserved |
| `CubicStage.AllowedWithin` | soxr-sys/src/cr-core.c:52-56 | a stream allows output k just when it is longer than floor(k*step/2^32) + max(3, floor(step/2^32)) |
| `CubicStage.Stage.Call` | soxr-sys/src/cr-core.c:49-67 | one call does one step of that run |
| `OneShots.HalvedGrows` | soxr-sys/src/half-fir.h:29-50 | a longer stream only adds to what the half-band stage makes of it |
| `OneShots.InterpolatedGrows` | soxr-sys/src/cr-core.c:49-67 | the same of the cubic stage |
| `OneShots.FilteredGrows` | soxr-sys/src/cr.c:68-174 | the same of the block filter |
| `OneShots.FilteredMade` | soxr-sys/src/cr.c:68-174 | what a block filter has made begins what it makes of the stream at once |
| `Rate.StuckIff` | soxr-sys/src/cr.c:390-396 | a call makes progress just when the queue is longer than what the stage keeps back |
| `Rate.NeverAhead` | soxr-sys/src/cr.c:541-547 | unless the step was rounded down, the outputs made before the flush never exceed what the input is worth |
| `Rate.ExactAccount` | soxr-sys/src/cr.c:515-547 | under every sequence of calls that return, for every positive ratio: if the stage can make no more of the input than it is worth, never more is delivered than floor(in/ratio + 1/2), and after the flush the account holds exactly the rest |
| `Rate.DrainIsExact` | soxr-sys/src/cr.c:515-547 | once flushing, whatever the ratio, a request that returns delivers all it asks for, or all that is owed if that is less; nothing if the account is overdrawn |
| `Rate.GivenSamples` | soxr-sys/src/cr.c:515-547 | under every sequence of calls that return, every delivered sample is the interpolation of the input, with silence around it, at its own place |
| `Rate.Channel.Process` | soxr-sys/src/cr.c:515-523 | as many turns of the loop as one likes: over, it has run the stage until enough waits or input runs short; not over, the state is that after so many turns, and with more turns than samples asked for the loop has no end |
| `Rate.Channel.StageProcess` | soxr-sys/src/cr.c:498-513 | one turn for the input stage, padded with zeros when flushing |
| `Rate.Channel.Input` | soxr-sys/src/cr.c:525-531 | appends and counts, or refuses when flushing |
| `Rate.Channel.Output` | soxr-sys/src/cr.c:533-539 | the count is the least of what is asked for, available and, when flushing, owed; it hands over that many from the front of the queue, the rest stays, and the account moves by the count |
| `Rate.Channel.Flush` | soxr-sys/src/cr.c:541-547 | settles the account once |
| `RateOutput.RequestBrings` | soxr-sys/src/cr.c:515-539 | before the flush, under any calls that return, a request for n samples brings n, or all that the stage can make of the input and has not given |
| `RateOutput.ReadBrings` | soxr-sys/src/cr.c:533-539 | under any calls a read hands over all that waits, up to what is asked for and, when flushing, owed |
| `RateOutput.MakesIff` | soxr-sys/src/cr-core.c:52-56 | output k of n samples is made just when floor(k*step/2^32) + max(3, floor(step/2^32)) is at most n |
| `RateOutput.TimeError` | soxr-sys/src/cr.c:393 | output k is taken within k/2^33 of k times the ratio |
| `RateOutput.PolynomialSamples` | soxr-sys/src/cr-core.c:56-62 | under any calls, of a sampled cubic every sample handed out is the cubic at its own time, from the first whole sample on, or from the start if it vanishes one sample before |
| `RateOutput.LineSamples` | soxr-sys/src/cr-core.c:56-62 | so of a straight line sample k is off by at most the slope times k/2^33 |
| `RateLimits.EndlessIff` | soxr-sys/src/cr.c:515-523 | the loop has no end just when it goes on after every number of turns |
| `RateLimits.StandsStill` | soxr-sys/src/cr-core.c:49-67 | a full queue no longer than a step is left as it is by every turn |
| `RateLimits.InputNeverReturns` | soxr-sys/src/cr.c:515-523 | steps of 8192 samples or more: asking for anything once the queue is full, and no longer than a step, never returns |
| `RateLimits.FlushNeverReturns` | soxr-sys/src/cr.c:498-523 | the same after a flush, for every input shorter than a step that is worth a sample |
| `RateLimits.RatioOf8192` | soxr-sys/src/cr.c:515-523 | so with a ratio of 8192, after 8191 samples |
| `RateLimits.ZeroNeverReturns` | soxr-sys/src/cr.c:393 | ratios below 2^-33, whose step is 0: asking for anything after three samples or more never returns |
| `RateLimits.AlwaysReturnsIff` | soxr-sys/src/cr.c:390-396 | every call returns, after any others, just when the step is not 0 and below 8192*2^32 |
| `RateLimits.TightIff` | soxr-sys/src/cr.c:541-547 | for inputs of n samples, no more than their worth is delivered under any calls, just when the stage can make no more of them |
| `RateLimits.AlwaysTightIff` | soxr-sys/src/cr.c:393 | that is so for every n just when the step was not rounded down, or to 0 |
| `RateLimits.OverdrawnRun` | soxr-sys/src/cr.c:533-547 | a step rounded down: calls of any size that leave the account overdrawn and the next read with a negative count |
| `OverlapSave.RunIsFilter` | soxr-sys/src/cr.c:76-161 | with a positive step, over any run, zeros stuffed in either domain, any taps and any at, the outputs are the zero-stuffed stream through one linear filter, every M-th value kept, each taken at its own place, as many as whole blocks of the stream allow |
| `OverlapSave.InStepIff` | soxr-sys/src/cr.c:76-137 | the places are the values' own numbers always in the time domain, and in the frequency domain just with one tap more than a multiple of L |
| `OverlapSave.NoDrift` | soxr-sys/src/cr.c:76-173 | L*consumed - M*produced is the change in at minus that in remM, both stay in range, and input_size is the least occupancy that fires |
| `OverlapSave.SpectralDrift` | soxr-sys/src/cr.c:87-124 | the same with zeros stuffed in the frequency domain, with the excess per block and when it is none |
| `OverlapSave.InputSizeIsLeast` | soxr-sys/src/cr.c:173 | input_size items make a block fire, fewer do not |
| `OverlapSave.StepFacts` | soxr-sys/src/cr.c:79-82 | at and remM stay in range and the samples taken are there |
| `SpectralStart.EarlyBy` | soxr-sys/src/cr.c:87-124 | stuffing in the frequency domain makes the values of at places later |
| `SpectralStart.SameValuesIff` | soxr-sys/src/cr.c:240-241 | both ways of stuffing make the same values for every stream just when at is 0 or nothing is heard |
| `SpectralStart.ClickIsEarly` | soxr-sys/src/cr.c:87-124 | of a click the first output is the last tap, where the time domain makes the tap at places before |
| `FftInverse.FullIsSpectrum` | soxr-sys/src/cr.c:93-98 | the mirrored half is the whole Hermitian spectrum |
| `Replication.ReplicatedIsSpectrum` | soxr-sys/src/cr.c:87-122 | its copies are the spectrum of the zero-stuffed block |
| `Replication.Replicate` | soxr-sys/src/cr.c:91-122 | the mirror and doubling loops make those copies and fill the buffer exactly |
| `DftStage.CircularIsLinear` | soxr-sys/src/cr.c:205-210 | with the taps stored wrapped, the first block_len values of the circular filter are the linear filter's |
| `DftStage.WrapTaps` | soxr-sys/src/cr.c:204-210 | the loop stores tap i at i + offset around the buffer |
| `DftStage.PrepareCoefs` | soxr-sys/src/cr.c:204-226 | the coefficients are the spectrum of the wrapped taps |
| `DftStage.GainIs` | soxr-sys/src/cr.c:206 | the scaling makes the gain L times the multiplier |
| `DftStage.StuffBlock` | soxr-sys/src/cr.c:125-137 | fills the block with the zero-stuffed head of the queue |
| `DftStage.Stage.Analyse` | soxr-sys/src/cr.c:87-142 | either way the buffer holds the spectrum of the zero-stuffed block |
| `DftStage.Stage.Transform` | soxr-sys/src/cr.c:87-146 | the first block_len values are the filter's |
| `DftStage.Decimate` | soxr-sys/src/cr.c:149-160 | keeps every M-th value from remM on, and counts them |
| `DftStage.ThinnedLoses` | soxr-sys/src/cr.c:163-169 | decimating in the frequency domain, every value emitted is the linear filter's at its own place, less what the dropped coefficients would have added |
| `DftStage.ThinnedWhenClear` | soxr-sys/src/cr.c:163-169 | with a filter whose spectrum vanishes from the edge up a block emits just what decimation in the time domain emits, for any L, at and queue |
| `DftStage.ThinnedIffClear` | soxr-sys/src/cr.c:163-169 | with L of 1 that is so on every queue just for such filters |
| `DftStage.EmittedIsKept` | soxr-sys/src/cr.c:169 | trimming leaves as many values as decimation of the block keeps, none beyond the short transform |
| `DftStage.CalledRunIsRun` | soxr-sys/src/cr.c:163-173 | with such a filter and blocks that M divides, any arrivals and calls make the run of OverlapSave |
| `DftStage.Stage.Thin` | soxr-sys/src/cr.c:163-166 | the partial product and the short backward transform leave those values at the front of the buffer |
| `DftStage.Stage.DeliverThin` | soxr-sys/src/cr.c:167-169 | appends just those that the block allows to the output |
| `DftStage.Stage.Call` | soxr-sys/src/cr.c:68-174 | one call does one step of the run, with either way of stuffing and either way of decimating |
| `DftStage.Stage.constructor` | soxr-sys/src/cr.c:204-248 | from the designed taps on, sets the stage up for either way of decimating, so that its calls may begin |
| `DftStage.PowerOfTwoIff` | soxr-sys/src/filter.h:14 | zeros are stuffed in the frequency domain for the powers of two from 2 on and for no other L |
| `DftStage.Stage.Preload` | soxr-sys/src/cr.c:489-490 | puts zeros ahead of the stream |
| `DftFilter.RoundTapsLeast` | soxr-sys/src/filter.c:139-141 | the number of taps is the least one more than a multiple that is not below the estimate |
| `DftFilter.ExponentIff` | soxr-sys/src/cr.c:180-181 | the number computed is the whole part of log2(taps) + 1.77, said in powers of whole numbers |
| `DftFilter.LengthLimits` | soxr-sys/src/cr.c:178-182 | with that k the length is the lesser of max(2^least, 2^(k+1)) and max(2^large, 2^k) |
| `DftFilter.LongerThanTaps` | soxr-sys/src/cr.c:178-182 | whatever the limits, the length is a power of two above the number of taps |
| `DftFilter.LinearPhaseInStep` | soxr-sys/src/cr.c:196-205 | linear phase and L a power of two: less than 2*L taps are added, at begins and stays at 0, and a block takes exactly block_len/L inputs |
| `DftFilter.LongBlock` | soxr-sys/src/cr.c:178-182 | a block is at least three eighths of the transform |
| `DftFilter.BlockHolds` | soxr-sys/src/cr.c:178-182 | within the limits of soxr.h a block has at least 96 places |
| `PhaseDrift.PhaseInStepIff` | soxr-sys/src/filter.c:230-234 | a filter of another phase with L = 2^p up to 256, as designed: in step just when L is at most 2 or L/4 divides the number of fours in its taps; for L = 8 its taps are 1 or 5 modulo 8 |
| `PhaseDrift.DriftsByExcess` | soxr-sys/src/cr.c:76-124 | n fired blocks take n times the excess more places than they make |
| `PhaseDrift.EightDrifts` | soxr-sys/src/cr.c:178-182 | 1501 taps and L = 8 get a transform of 8192 points and an excess of 4 or -4 for every at |
| `DftFilter.EmittedIs` | soxr-sys/src/cr.c:163-169 | decimation in the frequency domain emits block_len/M rounded up, exactly that when M divides it |
| `DftFilter.DecimationExact` | soxr-sys/src/cr.c:163-169 | with the taps as designed and M of 2 or 4 it is exact |
| `DftFilter.TapsOneModFour` | soxr-sys/src/filter.c:139-141 | both ways of designing leave one tap more than a multiple of four, or of 2*L with linear phase, less than one such step above the estimate |
| `Driver.AllGrounded` | soxr-sys/src/cr.c:498-523 | occupancies compared input stage first admit no endless descent, for any number of stages |
| `Driver.Pipeline.StageProcess` | soxr-sys/src/cr.c:498-513 | ends, and calls the stage once, on what it held and what came into its queue, whether or not the input ran short; false means that the stage consumed something and the occupancies fell, true that every stage up to it holds less than input_size and was last called with what is named; flushing always produces |
| `Driver.Pipeline.FillQueue` | soxr-sys/src/cr.c:503-510 | ends with the queue full enough, or with every stage below starved since its last call; flushing, the input is topped up to input_size exactly |
| `Driver.Pipeline.Process` | soxr-sys/src/cr.c:515-523 | ends with enough output, or every stage starved since its last call; flushing, with enough output |
| `Driver.Pipeline.Input` | soxr-sys/src/cr.c:525-531 | appends and counts, or refuses when flushing |
| `Driver.Pipeline.Output` | soxr-sys/src/cr.c:533-539 | hands over what is asked for, available and, when flushing, owed |
| `Driver.Pipeline.Flush` | soxr-sys/src/cr.c:541-547 | settles the account once |
| `Driver.Pipeline.Deliver` | soxr-sys/src/soxr.c:656-668 | for any chain: once flushing, exactly what is asked for, or all that is owed if that is less; before, what is asked for unless every stage has run short and been called since |
| `Driver.HeardIsThrough` | soxr-sys/src/cr.c:498-513 | under any calls, what each stage has heard begins the composition of the stages before it |
| `Driver.Pipeline.GivenIsThrough` | soxr-sys/src/cr.c:498-547 | so the samples handed out begin the composition of all stages on the whole input, with silence behind it once flushing |
| `Driver.Pipeline.AllIsThrough` | soxr-sys/src/cr.c:498-547 | when no stage's call would take anything more, what was handed out and what still waits are the whole composition |
| `Driver.Pipeline.ShortIsThrough` | soxr-sys/src/cr.c:498-523 | when a request comes back short and no stage's last call left anything for another, what was handed out and waits is the whole composition |
| `StageKinds.ChainsRun` | soxr-sys/src/cr.c:498-513 | half-band, cubic and block-filter stages meet the conditions of the driver, and go on following their one-shot filters |
| `StageKinds.ChainsCompose` | soxr-sys/src/cr.c:498-513 | what they make begins their one-shot filters of what they heard, and hearing more only adds to it |
| `StageKinds.ChainsExhaust` | soxr-sys/src/cr.c:498-513 | a stage whose call takes nothing has made all of its one-shot filter |
| `StageKinds.ChainOutput` | soxr-sys/src/cr.c:498-547 | so the output of a chain of any such stages, however fed and asked, begins the composition of their filters on the whole input, and is all of it once no stage can take more |
| `StageKinds.OneCallFinishes` | soxr-sys/src/cr.c:511 | a call on no more than input_size items beyond what the stage keeps back leaves nothing for another; for a block filter any call that leaves less than input_size |
| `StageKinds.CutShort` | soxr-sys/src/half-fir.h:40-41 | of a half-band stage any longer queue leaves something |
| `StageKinds.Request` | soxr-sys/src/soxr.c:656-668 | before the flush, a request for len samples brings len, or all that is left of the composition of the filters on the whole input: always with one stage, or block filters behind the first, and in any chain in which no last call was cut short by input_size |
| `StageKinds.StartKept` | soxr-sys/src/cr.c:461-492 | stages as they are set up, with anything in their queues, meet those conditions |
| `StageKinds.TakesSomething` | soxr-sys/src/cr.c:79 | a firing block consumes something just when it is longer than at |
| `StageKinds.DesignedIsFruitful` | soxr-sys/src/cr.c:178-182 | filters with lengths as set_dft_length chooses them always consume and keep something, for L and M up to 96 or three eighths of the taps |
| `StageKinds.LinearPhaseIsFruitful` | soxr-sys/src/cr.c:196-205 | with linear phase so does every L that is a power of two |
| `ChainAccount.ChainNotAhead` | soxr-sys/src/cr.c:541-547 | a chain that converts by its io_ratio, of stages that make no more than their share and of which only the last may be cubic, never hands out more before the flush than its input is worth |
| `ChainAccount.HalfModest` | soxr-sys/src/cr.c:366-372 | a half-band stage with its zeros makes no more than half of what it is given |
| `ChainAccount.CubicModest` | soxr-sys/src/cr.c:390-397 | a cubic stage with its zero makes no more than its share and half a sample |
| `ChainAccount.BlockModest` | soxr-sys/src/cr.c:79-161 | a block filter in step makes no more than its share, if at, its zeros and M take no more places than it has taps |
| `ChainAccount.DesignedModest` | soxr-sys/src/cr.c:240-241 | as designed it does so if its peak lies at least M taps before the end |
| `ChainAccount.PlannedGains` | soxr-sys/src/cr.c:365-389 | the half-band stages and block filters of a plan without an arbitrary-ratio stage make one sample of as many as the plan's ratio says |
| `ChainAccount.CubicGains` | soxr-sys/src/cr.c:393-396 | the cubic stage alone makes one sample of step/2^32 |
| `StagePlan.Halve` | soxr-sys/src/cr.c:318 | takes out a power of two and leaves less than 4 |
| `StagePlan.Split` | soxr-sys/src/cr.c:317-321 | the pre and post stages conserve the ratio, and what they take of it: below 1 the pre stage doubles, to 3/2 too, from there to 2 the post stage halves |
| `StagePlan.Approximate` | soxr-sys/src/cr.c:322-331 | a rational found is within the tolerance's slack; a fraction in lowest terms whose denominator is tried, with no other within the slack, is found itself |
| `StagePlan.EpsilonTight` | soxr-sys/src/cr.c:322-323 | epsilon amounts to half a unit in the 32nd place |
| `StagePlan.EpsilonMeans` | soxr-sys/src/cr.c:323 | times the fraction it is what rounding the fraction to 32 places changes |
| `StagePlan.ZeroAcceptedIff` | soxr-sys/src/cr.c:322-327 | the numerator 0 is accepted for a fraction below one half just when it is at most 2^-33 |
| `StagePlan.FirstPost` | soxr-sys/src/cr.c:334 | the post stage interpolates by the greatest power of two that is 4, or at most a quarter of d, and at most 256 |
| `StagePlan.Decomposed` | soxr-sys/src/cr.c:316-318 | every rational ratio is 2^s * m/l in lowest terms with m/l below 4, and at least 2 unless s is 0 |
| `StagePlan.FewTerms` | soxr-sys/src/cr.c:336-337 | ratios of terms up to 4 are among those that Determine does in one block filter |
| `StagePlan.PostRestart` | soxr-sys/src/cr.c:333-335 | restarting with a post stage carries the ratio over |
| `StagePlan.AllInPreRatio` | soxr-sys/src/cr.c:336-337 | moving the rational into the pre stage conserves the ratio |
| `StagePlan.Determine` | soxr-sys/src/cr.c:313-340 | for every positive ratio, ends within three passes; the product of the stages' ratios is io_ratio up to the slack, and exactly io_ratio after at most two passes without tolerance; there is no plan only for ratios of at most four times the slack, and none when the tolerance admits the numerator 0 for the first fraction; which stages there are, for every ratio 2^s * m/l whose terms are tried: one block filter m/l, if max(l, m) < 3 or, with small integers optimised, max(l, m) < 5 or l*m < 6, else the pre and post stages' shares and the rest in lowest terms; and the post stage of FirstPost just for interpolations above 4 other than 5 |
| `Ccrw2.InvStep` | soxr-sys/src/ccrw2.h:22-47 | every step keeps the accounts of who holds which lock |
| `Ccrw2.MutualExclusion` | soxr-sys/src/ccrw2.h:22-47 | in every execution a writer is alone |
| `Ccrw2.ReadersOnlyLeave` | soxr-sys/src/ccrw2.h:36-47 | while the writers hold r no new reader gets past it |
| `Ccrw2.SomeoneCanStep` | soxr-sys/src/ccrw2.h:22-47 | some non-idle thread can always step |
| `FftCache.InvStep` | soxr-sys/src/fft4g_cache.h:31-71 | every step keeps lengths covered and tables built, and never lowers FFT_LEN |
| `FftCache.CacheSafety` | soxr-sys/src/fft4g_cache.h:31-71 | in every execution: FFT_LEN never decreases, it covers every length in use with tables built for it, and when a reader enters the branches that write tables |
| `FftCache.ReaderTakesMakewt` | soxr-sys/src/fft4g_cache.h:31-71 | from the start, one thread asking twice for length 2 comes with the read lock into the branch that writes tables; their sizes stay what they are |
| `FftCache.AskedLength` | soxr-sys/src/fft4g_cache.h:66-71 | whatever the other threads do, the length inside the transform is the one the thread called with |
| `FftCache.LengthReached` | soxr-sys/src/fft4g_cache.h:31-71 | a thread with any length gets into the transform, with FFT_LEN and the tables made for it, and out again |
| `FftCache.ReaderBranches` | soxr-sys/src/fft4g.c:345-359 | tables for FFT_LEN serve every covered length without makewt or makect, length 2 apart |
| `Promise.InvNext` | livekit-protocol/src/promise.rs:29-55 | every step keeps the invariant, and a resolved value is never replaced |
| `Promise.ResultsAgree` | livekit-protocol/src/promise.rs:29-59 | all completed calls return the value of the one successful resolve, and try_result shows no other |
| `Promise.TryResultShows` | livekit-protocol/src/promise.rs:57-59 | in every execution, from the moment a call has returned try_result shows its value; while none has returned, or one is writing, nothing |
| `Promise.LateCallReturns` | livekit-protocol/src/promise.rs:40-45 | a call that begins when another has returned returns the same in its first step |
| `Promise.LostIff` | livekit-protocol/src/promise.rs:48-50 | in every execution the result is lost just when some step dropped a future that held the receiver or what it received |
| `Promise.UnwrapFailsIffLost` | livekit-protocol/src/promise.rs:53 | in every execution the final unwrap fails just when there was such a step |
| `Promise.FailingRun` | livekit-protocol/src/promise.rs:39-55 | for any two or more tasks and either place, an execution that fails although the promise is resolved |
| `Promise.NeverFails` | livekit-protocol/src/promise.rs:39-55 | without such a drop it never fails |
| `Promise.SomeoneCanAdvance` | livekit-protocol/src/promise.rs:39-55 | once resolved, some unfinished call can go on |
| `Promise.AllCanFinish` | livekit-protocol/src/promise.rs:39-55 | once resolved, all calls can finish, in six steps each at most |

## Left out

- Rounding: samples, gains and ratios are exact reals.
- Integer widths: the counts and positions that the source keeps in `int` and `int64_t` are unbounded.
- Decimation in the frequency domain: how small a stop band makes `Lost` is a matter of the filter's design; `ThinnedIffClear` has its converse for L of 1.
- StageKinds.ChainOutput: its block filters have a positive step; one that decimates in the frequency domain is among them when its spectrum is clear, by CalledRunIsRun.
- ChainAccount.ChainNotAhead: one-sided; how much less a chain hands out before the flush depends on the delays of its stages.
- StagePlan.Determine: with a tolerance it says which stages there are for the ratios whose terms the search finds; of other ratios, and of what is planned in front of a post stage, the product.
- DftStage.Stage.constructor: takes the designed taps as given; the Kaiser design, `lsx_fir_to_phase` and the frequency response are numeric approximations.
- DftStage.Stage.Transform: works in a buffer of its own, as the vectorised build does, where the plain build uses the room reserved in the output queue.
- Driver.Pipeline.StageProcess: keeps queues as sequences and stages as values; the queues in place are in Fifos, the stages in place in their own modules.
- Driver.Pipeline.GivenIsThrough: gives the output as a beginning of the composition; Deliver says how many samples, AllIsThrough and StageKinds.Request when it is all of it.
- StageKinds.Request: with a half-band or cubic stage behind another it speaks of requests in which no last call was cut short by input_size; that the half-band stages of one chain never are is not proved.
- CubicStage.PolynomialExact: speaks of outputs whose four samples are all input; FirstOutputs treats the earlier ones.
- The polyphase stages: `poly-fir.h` and `poly-fir0.h` are not part of this model.
- `UPDATE_FFT_CACHE` is modelled with initialised locks and clients of `LSX_SAFE_RDFT`; the race of the lazy initialisation, `LSX_SAFE_CDFT` and the clearing at exit are not.
- Steps of the lock: a count is changed and tested in one step, under its mutex; a writer's table building is one step, being alone.
- Promise: resolve is one step, so its `try_lock` always succeeds; the promise itself outlives its callers.
- Allocation failure, `ddct`, `ddst`, `dfct`, `dfst`, the vectorised and libav variants, and everything outside the resampler and the promise.
