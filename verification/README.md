# Speex, loss concealment and jitter buffering: a verified model

This project models the native layer of a voice-call application: the Speex
codec, the SpanDSP loss concealer and time scaler, and a jitter buffer, all in
`jni/`. Code that works on arrays and records in place is modelled by methods on
arrays and classes with the same loops and branches; each is proved against a
specification that says what the step is for, and the specifications are proved
to fit together over whole packets and whole runs.

Signal code is modelled over exact reals (`jni/config.h` selects
`FLOATING_POINT`, which makes the scaling macros no-ops), LSP quantisation
both over reals and in 16-bit fixed point with its wrap-around written out, and
the bitstream over real bytes.

| part | files | what is proved |
|---|---|---|
| Shared arithmetic | `IntArith` | quotients, powers of two and named products, used by the parts below |
| Fourier transform | `Complex`, `Twiddles`, `FftSpec`, `Butterflies`, `Primes`, `KissFft`, `FftInverse` | the factoriser, the digit-reversal shuffle and the staged butterflies compute the plain DFT sum, exactly for the sizes whose prime factors are at most 17; forward and inverse undo each other up to n |
| Filters | `RealSums`, `FilterSpec`, `Filters` | transposed memories solve the difference equations; synthesis undoes residue; the impulse-response shortcut; synthesis is convolution |
| Codebook search | `Vq`, `NBest`, `CbSpec`, `CbSearch`, `Innovation` | the distance the beam search keeps is exactly half the squared norm of the target less the filtered excitation; every beam holds the cheapest extensions of the one before; the decoder adds the same excitation |
| Pitch search | `LtpSpec`, `Ltp`, `OpenLoop`, `GainRun` | the candidates are the best lags; the shift recursion equals filtering each delayed excitation; the chosen gains minimise the penalised error; the cumulative gain is bounded over every run; the decoder reads the same pitch and gains |
| Bitstream | `BitSeqs`, `Bits`, `BitRuns`, `Fields`, `Framing`, `Packets`, `Wideband`, `WbDecoder`, `Ultra`, `FieldRange` | packing and reading are inverse, over any run; every frame fills its table size and cuts none of its fields; packets are parsed back, by the narrowband, the wideband and the ultra-wideband decoder |
| LSPs | `Lsp`, `QuantLsp`, `LspAgree`, `LspFloat` | the clocked cascade yields half the sum of the two products; both Chebyshev recurrences; for which inputs encoder and decoder of quantised LSPs agree, in fixed point and in floating point |
| Time scaling | `TimeScale`, `OutputLen` | termination, an exact balance of samples in and out, bounded drift, what each edit does to the stream, and when the promised output length holds |
| Jitter buffer | `PlayoutSpec`, `Playout` | the linked queue refines a state machine; order, conservation and timing laws over every run |
| Loss concealment | `Plc` | the history ring is always the last 280 samples played; every sample of a gap over any calls, and when a gap is silent |

Some results differ from what one would expect of the code; each is stated as it
is, with an input that shows it and the exact condition:

* `playout_put` keeps a sorted queue sorted exactly when the new frame does not
  fall strictly between the first two (`PutSorted`); stamps 0, 320 and 160 end up
  as 160, 0, 320 (`PutOutOfOrder`).
* `playout_get` drops every frame that is not due to the sample. In a buffer of
  fixed length no frame of a regular stream is ever played if that length is not
  a whole number of frames (`NeverPlayed`), and all are if it is (`AllPlayed`);
  an adaptive one plays such a frame only where its target rises. A fresh
  adaptive buffer counts as long unchanged, so the first speech frame shrinks it
  (`FirstShrinks`).
* A wideband layer is skipped by a narrowband decoder exactly when its submode is
  1 to 4; the silent layer that `sb_encode` itself sends is not, so a narrowband
  decoder reads a whole packet exactly when no frame before the last carries one
  (`SkippedExactly`, `NarrowbandReadsAll`). Of an ultra-wideband packet a
  narrowband decoder reads the frames up to the first with a silent layer of
  either kind, a wideband one those up to the first with a silent upper layer,
  that one included (`NarrowbandReads`, `WidebandReads`).
* When speeding up, the time scaler's cross-fade is overwritten by the move that
  closes the gap, so the output is a cut. It is the intended cross-fade exactly
  when the samples k into the two periods differ by less than period / k and the
  second does not lie on the side of 0 from the first (`DropIsNoFade`); four
  samples show a cut (`DropExample`).
* `time_scale_max_output_len` is not a bound. At rate 1 it is one exactly when at
  most min_pitch + 1 samples are buffered. At other rates it is one exactly when
  what the call comes to owe exceeds what was owed by at most that much. Seen from
  before the call, it holds whenever little is buffered (`LittleBuffered`), and
  where the input ends within the promise, buffer, promise and lengths alone
  decide it (`Measured`). From a fresh state at 8000 samples a second, calls of
  266 and 265 samples at rate 1.02 make the next sample bring out 266 where 135
  are announced (`Overrun`); 200 samples at rate 1.5 and a return to rate 1 make
  every call overrun (`OverrunAtOne`).
* In fixed point the quantised LSPs of encoder and decoder agree exactly when the
  quantisation error is under one radian (`NbAgrees`), or two in the other two
  schemes. Before the call: for all codebooks and indices, exactly when the input
  is from 1080 below to 1023 above its start value in the narrowband scheme, and
  from 10288 below to 10239 above in the other two (`NbAlwaysSame`,
  `LbrAlwaysSame`, `HighAlwaysSame`). A first LSP of 25000 never agrees in the two
  narrowband schemes (`NeverSame`).
* In floating point the decimal scales are not quite powers of two: low bit rate
  and high band agree exactly when the input is the start value, narrowband
  exactly when 128 times the distance from it cancels the entries chosen
  (`LbrDrift`, `HighDrift`, `NbDrift`).
* `pitch_search_3tap` returns the last pitch candidate it tried. That is the one
  it packs exactly when its error is strictly the least (`PackedLast`), as the
  candidates are all different (`OpenLoopNbestPitch`). After a silent past, as at
  the start of a call, it packs the first of two or more candidates and returns
  the last, with any gain table (`ReturnedNotPacked`).
* A gap in reception is silent from its 400th sample on only after its first
  call; while the first call lasts, from 400 samples after the onset
  (`Gap`); at which samples before that it is silent, too, is `FadedAway`.

Check the project with `dafny verify dfyconfig.toml` (Dafny 4.11).

## Model

| member | source | states |
|---|---|---|
| Twiddles.HalfTurn | jni/kiss_fft.c:464-500 | in any table of roots of unity, half a turn is -1, so radix 2 may subtract |
| Twiddles.QuarterTurn | jni/kiss_fft.c:86-166 | a quarter turn is -i forwards and +i backwards: the only place the direction matters |
| Twiddles.ThirdTurn | jni/kiss_fft.c:168-212 | a third of a turn has real part -1/2, which the radix-3 butterfly uses without reading it |
| Twiddles.SmallTables | jni/kiss_fft.c:485-498 | tables of roots of unity exist: those of 1, 2 and 4 entries, in both directions |
| KissFft.NextDivisor | jni/kiss_fft.c:443-451 | the inner loop ends at a divisor of n; every candidate it passed over does not divide n |
| KissFft.KfFactor | jni/kiss_fft.c:437-456 | for every size the radices multiply to n with the cofactors between them, and all radices are at most 17 exactly when all prime factors of n are |
| FftSpec.ShuffleIsBijection | jni/kiss_fft.c:322-352 | the digit reversal and its inverse undo each other on every block |
| KissFft.OneTwo | jni/kiss_fft.c:437-456 | the radices are 4 as often as it goes, 2 at most once, then odd |
| KissFft.KfShuffle | jni/kiss_fft.c:322-352 | the recursion copies each strided input to its digit-reversed place and touches nothing else |
| Butterflies.Radix2 | jni/kiss_fft.c:29-84 | sum and difference are the two rows of the twiddled 2-point transform |
| Butterflies.Radix3 | jni/kiss_fft.c:168-212 | the three outputs of the special butterfly are the rows of the twiddled 3-point transform |
| Butterflies.Radix4 | jni/kiss_fft.c:86-166 | the same for radix 4, in both directions |
| Butterflies.Radix5 | jni/kiss_fft.c:214-275 | the same for radix 5, which reads only two twiddles |
| Butterflies.TwiddleStep | jni/kiss_fft.c:310-312 | one conditional subtraction always brings the running table index back below n |
| Butterflies.Bfly2 | jni/kiss_fft.c:29-84 | in place, over N blocks: each block becomes the stage's sum over its rows, the rest is unchanged |
| Butterflies.Bfly3 | jni/kiss_fft.c:168-212 | the same for one block of radix 3 |
| Butterflies.Bfly4 | jni/kiss_fft.c:86-166 | the same over N blocks of radix 4 |
| Butterflies.Bfly5 | jni/kiss_fft.c:214-275 | the same for one block of radix 5 |
| Butterflies.BflyGeneric | jni/kiss_fft.c:278-319 | refuses exactly radices above 17, else does the same for one block of any radix |
| FftSpec.Decimation | jni/kiss_fft.c:355-430 | the transform of p*m samples is the twiddled sum of the transforms of its p interleaved parts |
| FftSpec.StageJoins | jni/kiss_fft.c:355-430 | one butterfly stage joins p transforms of m points into one of p*m |
| FftSpec.WorkTransforms | jni/kiss_fft.c:355-430 | all stages turn digit-reversed blocks into transforms in natural order, for every list of factors |
| FftSpec.FftIsDft | jni/kiss_fft.c:505-517 | shuffle and stages together are the plain sum over f[j] tw[jk mod n], at every bin |
| KissFft.KfWork | jni/kiss_fft.c:355-430 | in place, the recursion is that sequence of stages; it succeeds exactly when no radix exceeds 17 |
| KissFft.KissFftState.Stride | jni/kiss_fft.c:505-517 | every output is the plain DFT sum of every in_stride-th input; refused exactly in place or for a size with a prime factor above 17 |
| FftInverse.RootsCancel | jni/kiss_fft.c:464-500 | the powers of a root other than 1 cancel over a full period |
| FftRoundTrip.InverseTransform | jni/kiss_fft.c:464-522 | the inverse sum of a spectrum is n times the signal |
| FftRoundTrip.ThereAndBack | jni/kiss_fft.c:505-522 | running both transforms of the code gives back n times the input |
| FilterSpec.FirCommutes | jni/filters.c:379-402 | filters commute |
| FilterSpec.SynthesisUndoesResidue | jni/filters.c:379-402 | the four difference equations of residue and synthesis, chained, give back the input |
| FilterSpec.SynthesisIsConvolution | jni/filters.c:379-390 | perceptual synthesis is convolution with its impulse response |
| FilterSpec.SynthesisUnique | jni/filters.c:379-390 | signals with the same synthesis equation are equal |
| FilterSpec.ImpulseShortcut | jni/filters.c:406-437 | feeding the numerator through the two denominators gives the response of the whole chain |
| Filters.RunsFiltered | jni/filters.c:319-375 | transposed memories started from zero solve the difference equation |
| Filters.FilterMem16 | jni/filters.c:319-335 | output and final memories are those of the transposed recursion, also in place |
| Filters.IirMem16 | jni/filters.c:339-355 | the same without numerator |
| Filters.FirMem16 | jni/filters.c:359-375 | the same without denominator |
| Filters.SynPercepZero16 | jni/filters.c:379-390 | the output solves the two difference equations of perceptual synthesis from rest |
| Filters.ResiduePercepZero16 | jni/filters.c:391-402 | the output solves the two equations of the residue from rest |
| Filters.SynthesisOfResidue | jni/filters.c:379-402 | for all coefficients, orders and lengths, the synthesis of a residue is the signal it came from |
| Filters.ResidueThenSynthesis | jni/filters.c:379-402 | running both functions in place restores the array |
| Filters.ComputeImpulseResponse | jni/filters.c:406-437 | the one-pass loop over merged memories is the synthesis of a unit impulse |
| Vq.RankIsDistance | jni/vq.c:76-102 | twice the rank plus the energy of x is the squared distance |
| Vq.SignRankIsDistance | jni/vq.c:110-146 | the same with the sign chosen, and the other sign is no nearer |
| Vq.VqNbest | jni/vq.c:76-102 | the arrays hold the N best ranks in order, ties by lower index, nothing outside beating the last |
| Vq.VqNbestSign | jni/vq.c:110-146 | the same over codewords with the better of their signs, the sign stored as an offset |
| Vq.NearestListed | jni/vq.c:76-102 | what the search lists are the N nearest codewords in squared distance, nearest first, ties to the lowest index |
| Vq.NearestSignListed | jni/vq.c:110-146 | the same over codewords and their negatives |
| Vq.ScalQuant | jni/vq.c:51-60 | the first boundary not below the input, the last entry if there is none |
| NBest.InsertForgetsNothing | jni/cb_search.c:391-411 | inserting a candidate never loses one that still belongs: each considered pair stays listed or dearer than the last |
| NBest.Offer | jni/cb_search.c:391-411 | the insertion loop puts the newcomer before the first dearer entry and drops the last, or leaves the list |
| CbSpec.AddedHere | jni/cb_search.c:53-86 | inside its own subvector a codeword adds its truncated response |
| CbSpec.ExcMeans | jni/cb_search.c:471-495 | every value of the excitation is a 32nd of the codebook value of its index, with the sign flipped for the upper half of the indices |
| CbSpec.RestIsResidual | jni/cb_search.c:90-95 | the updated target is the target less the filtered excitation, at every sample |
| CbSpec.CostIsError | jni/cb_search.c:357-462 | the distance kept for a path is half the squared error over the subvectors done |
| CbSpec.CostIsSlowError | jni/cb_search.c:357-511 | for a full path it is half the squared norm of the target less the filtered excitation |
| CbSpec.CostOfChoice | jni/cb_search.c:370-389 | appending a codeword costs half its squared distance from what lies ahead, measured with truncated responses |
| CbSearch.ComputeWeightedCodebook | jni/cb_search.c:53-86 | the two tables are the truncated responses of all codewords and their energies |
| CbSearch.RankIsError | jni/cb_search.c:379-389 | ranking codewords ranks the errors they leave |
| CbSearch.OtherSign | jni/cb_search.c:379-383 | the sign the search does not consider is no nearer |
| CbSearch.TargetUpdate | jni/cb_search.c:90-95 | subtracts the scaled response and nothing else |
| CbSearch.SubtractTail | jni/cb_search.c:418-442 | subtracts exactly what the codeword adds after its own subvector |
| CbSearch.SearchSlot | jni/cb_search.c:370-412 | after a path, every codeword is in the list or no cheaper than its last |
| CbSearch.OneSubvector | jni/cb_search.c:357-462 | one round: the new paths are the N cheapest extensions of the old ones by any codeword, cheapest first, each with its exact cost and residual |
| CbSearch.BeamSearch | jni/cb_search.c:345-469 | over all rounds: a run of such beams from the empty paths, whose first path is returned with its distance |
| Innovation.SearchN1 | jni/cb_search.c:151-220 | each codeword is the best after those before it, and what is left of the target is the exact residual |
| Innovation.BuildExcitation | jni/cb_search.c:471-495 | the excitation put together from the indices is that of the path |
| Innovation.UpdateTarget | jni/cb_search.c:500-510 | the target less the synthesis of the excitation |
| Innovation.SplitCbSearchShapeSign | jni/cb_search.c:242-511 | packs the indices of one path and adds its excitation; the distance is exactly half the squared norm of target minus response convolved with excitation; the path heads the last beam (or is the greedy one) |
| Innovation.WidthGrows | jni/cb_search.c:282-290 | the beam is k wide or wider exactly when three times k is at most twice the complexity and k at most 6, for k from 2 on |
| Innovation.UpdatedTarget | jni/cb_search.c:500-510 | the updated target is the residual the search measured: the cost is half its squared norm |
| Innovation.IndicesRoundTrip | jni/cb_search.c:464-469 | packed indices are read back |
| Innovation.DecoderAgrees | jni/cb_search.c:514-570 | reading the packed indices gives the very excitation the encoder added |
| Innovation.EnoughLabels | jni/cb_search.c:514-570 | a packet long enough yields the numbers in its consecutive fields |
| Innovation.SplitCbShapeSignUnquant | jni/cb_search.c:514-570 | the decoder adds the excitation of the labels it reads and consumes exactly their bits; past the end of a packet signs and indices are 0, in whatever state the reader is |
| LtpSpec.TapShifts | jni/ltp.c:394-437 | each delayed excitation is the next one, a sample later, with one more past sample, also across the wrap past one period |
| LtpSpec.ConvShifts | jni/ltp.c:394-437 | the recursion x[i][j+1] = x[i+1][j] + r[j+1] e0 equals filtering the delayed excitation directly |
| LtpSpec.PitchConv | jni/ltp.c:499-521 | filtering the whole pitch excitation is combining the three filtered taps |
| Ltp.InnerProd | jni/ltp.c:59-74 | the inner product over whole blocks of four |
| Ltp.PitchGainSearch3tapVq | jni/ltp.c:311-344 | the first codebook entry with the highest score among those within the gain limit, entry 0 if there is none |
| Ltp.ErrorExpands | jni/ltp.c:156-169 | the squared error of three gains is the quadratic form in the nine correlations |
| Ltp.ScoreIsError | jni/ltp.c:156-169 | the score is a decreasing function of the penalised squared error |
| Ltp.ShiftTap | jni/ltp.c:394-437 | tap i in place of filtering: tap i + 1 a sample later plus the response times one past sample |
| Ltp.ShiftFiltered | jni/ltp.c:394-437 | a tap computed without filtering is the filtered tap, when r is the whole impulse response |
| Ltp.BuildPitchExc | jni/ltp.c:499-515 | the excitation built tap by tap, with the wrap past one pitch period |
| Ltp.BestIsBest | jni/ltp.c:311-344 | the entry with the best score leaves the least penalised error |
| Ltp.SearchIsExact | jni/ltp.c:394-521 | with the whole impulse response, the error and rest the search measures are those of the excitation itself, filtered and taken off the target |
| Ltp.PitchGainSearch3tap | jni/ltp.c:348-525 | builds the excitation of the entry with the least penalised error among those allowed, and returns what it measures of it, for any response r; exact when r is the whole response |
| Ltp.TryPitches | jni/ltp.c:617-631 | of all candidates tried, the first with the least error is kept with its excitation and rest, for any response r |
| Ltp.WhatIsRefused | jni/ltp.c:378-385 | up to a cumulative gain of 262144 the entry chosen from a table of signed bytes has the least penalised error of all; beyond it, of those with a sum of at most 31 |
| Ltp.NearestTuning | jni/ltp.c:462-466 | the penalty uses the value from 2 to 30 nearest to the tuning asked for |
| GainRun.Search | jni/ltp.c:632-640 | one search takes a cumulative gain above 262144 down by at least a part in 32, and any other to at most 0.03125 * 127 * 262144 |
| GainRun.SearchRun | jni/ltp.c:528-653 | over any run of searches from 1024, with tables of signed bytes whose first sum is at most 31: the cumulative gain never exceeds 0.03125 * 127 * 262144, and every search made above 262144 multiplies it by at most 31/32 |
| Ltp.PackedLast | jni/ltp.c:617-652 | of different candidates, the last one tried is the one packed exactly when its error is strictly the least |
| Ltp.ReturnedNotPacked | jni/ltp.c:528-653 | after a silent past the first of two or more candidates is packed and the last returned, for any target, filters, gain table and candidates |
| OpenLoop.EnergyIsPower | jni/ltp.c:230-238 | the energy brought on from lag to lag is the sum of the squares of the earlier frame, and the cut at 0 never acts, for frames of whole blocks of four |
| OpenLoop.CorrelationMeans | jni/ltp.c:142-152 | the correlation and the two energies make the squared difference of the frame from the one a lag earlier |
| OpenLoop.Crosswise | jni/ltp.c:264-288 | the crosswise products compare squared correlation over one more than the energy |
| OpenLoop.PitchEnergies | jni/ltp.c:230-238 | the energies of all lags, each from the one before |
| OpenLoop.PitchXcorr | jni/ltp.c:142-152 | the correlations of all lags, stored from the largest lag on |
| OpenLoop.Select | jni/ltp.c:264-290 | the lags listed are the N best, best first, the shorter first among equals; every initial slot is replaced |
| OpenLoop.OpenLoopNbestPitch | jni/ltp.c:173-290 | the N lags of largest squared correlation over one more than the energy, best first and all different |
| OpenLoop.NoneTwice | jni/ltp.c:264-290 | no lag is listed twice |
| OpenLoop.PitchSearch | jni/ltp.c:528-653 | the whole search: tries the best lags in order, packs and emits the first of least error, and returns that one exactly when the last tried has strictly the least |
| Ltp.PitchSearch3tap | jni/ltp.c:528-653 | packs the pitch and index of the least error, emits that excitation and leaves that rest; returns the last candidate; without room for a pitch it packs zeros and changes nothing |
| Ltp.OneTapMeans | jni/ltp.h:45-49 | one gain stands for three: their magnitudes, negative outer gains counted half |
| Ltp.CapMeans | jni/ltp.c:701-711 | the cap is the lesser of 0.95 and the last gain, halved from the fourth lost frame on |
| Ltp.DampedDecays | jni/ltp.c:699-751 | gains damped to the cap leave at most 0.95 of the loudest past sample, or twice that with a negative outer gain |
| Ltp.Damp | jni/ltp.c:699-723 | after a loss the gains are scaled to the cap exactly when they exceed it, and never up |
| Ltp.PitchUnquant3tap | jni/ltp.c:655-751 | the excitation of the pitch and gains read, consuming exactly their bits; past the end of a packet both indices are 0 |
| Ltp.PitchRoundTrip | jni/ltp.c:655-751 | the decoder reads the pitch and gain index the encoder packed |
| BitSeqs.ValueOfBits | jni/bits.c:229-303 | writing n bits and reading them gives the value modulo 2^n |
| BitSeqs.BitsOfValue | jni/bits.c:229-303 | reading n bits and writing them gives the bits back |
| Bits.BitIsShift | jni/bits.c:289-293 | bit k of a byte is the one 7 - k places from its lowest |
| Bits.OrBitIsShift | jni/bits.c:255-260 | and it is set there |
| Bits.SpeexBits.Pack | jni/bits.c:229-270 | appends the low n bits, growing an owned buffer when needed; a borrowed one that is too small is left alone |
| Bits.SpeexBits.UnpackUnsigned | jni/bits.c:283-303 | reads the next n bits as a number, or sets overflow and moves nothing |
| Bits.SpeexBits.Peek | jni/bits.c:334-341 | the next bit, nothing consumed |
| Bits.SpeexBits.Advance | jni/bits.c:343-351 | moves the cursor either way, or sets overflow and stays |
| Bits.SpeexBits.Rewind | jni/bits.c:102-107 | everything is unread again |
| Bits.SpeexBits.Reset | jni/bits.c:92-100 | empty and ready to write |
| Bits.SpeexBits.InsertTerminator | jni/bits.c:366-372 | pads to a byte with a 0 followed by ones (RFC 5574 section 3.3), in an owned buffer or a borrowed one with its last byte free |
| Bits.SpeexBits.ReadFrom | jni/bits.c:109-145 | loads a packet, all of it into an owned buffer, what fits into a borrowed one |
| Bits.SpeexBits.Write | jni/bits.c:188-209 | the bytes written are the stream and its padding, and the stream itself stays as it was |
| Bits.SpeexBits.WriteWholeBytes | jni/bits.c:211-227 | the bytes written and the bits kept are the whole stream exactly when there was room for all whole bytes |
| Bits.SpeexBits.Flush | jni/bits.c:147-154 | drops the bytes read and nothing else |
| Bits.SpeexBits.ReadWholeBytes | jni/bits.c:156-186 | what was unread followed by the new bytes, when the stream so far is whole bytes |
| BitRuns.PackUnpack | jni/bits.c:229-303 | any list of values of widths to 32, packed across buffer growth, rewound and read: each value modulo its width |
| BitRuns.RunSends | jni/bits.c:211-270 | however packs and drains alternate, bytes taken out followed by bits held are all bits packed, in order |
| BitRuns.RunReceives | jni/bits.c:156-186 | however reads and feeds alternate, the values come off one stream in order without a gap, until a read falls short; it and all after it give 0 and take nothing |
| Fields.SlotRoundTrip | jni/nb_celp.c:1231-1419 | reading back a packed list of fields gives each modulo its width |
| Fields.SameFields | jni/nb_celp.c:576-911 | for every narrowband submode encoder and decoder use the same fields in the same order; submode 1's extra bits, written in different places, meet because its subframes are empty |
| Fields.NbFrameSize | jni/modes.c:151-316 | header and fields of every narrowband submode add up to bits_per_frame |
| Fields.WbLayerSize | jni/modes_wb.c:84-176 | the same for every wideband submode; the skip table agrees with it exactly for submodes 1 to 4 |
| FieldRange.NbRoomy | jni/modes.c:64-151 | every field of every narrowband submode has room for exactly the values it can take: 128 lags, 32 or 128 gains, the codewords of its codebook |
| FieldRange.WbRoomy | jni/modes_wb.c:61-80 | the same for every wideband layer |
| FieldRange.FieldComesBack | jni/nb_celp.c:576-1419 | the lag, gains and codewords of every subframe, in every submode that has them, come back from every value they can take |
| FieldRange.FieldInTable | jni/nb_celp.c:1231-1419 | whatever the bits, every value read of a narrowband frame indexes its table |
| FieldRange.LayerInTable | jni/sb_celp.c:964-1072 | the same for a wideband layer |
| FieldRange.LagComesBack | jni/modes.c:324-325 | every lag from 17 to 144 comes back as it is, from each subframe of submodes 3 to 7 |
| FieldRange.GainComesBack | jni/modes.c:64-90 | so does every index of pitch gains: below 32 in submodes 2 to 4, below 128 in 5 to 7 |
| FieldRange.FrameLayout | jni/nb_celp.c:576-911 | in submodes 3 to 7 a subframe starts 33, 48, 65, 81 or 113 bits after the one before, with 7 bits of lag, 5 or 7 of pitch gain and 1 or 3 of gain |
| FieldRange.Conveyed | jni/nb_celp.c:538-1419 | encoded, written, loaded and decoded, a packet gives back all of that for every frame |
| Fields.NbEncode | jni/nb_celp.c:538-911 | appends the layer bit, the submode and exactly the fields of that submode |
| Fields.WbEncode | jni/sb_celp.c:503-728 | appends the layer bit, the submode and exactly the fields of the layer |
| Fields.NbDecodeBody | jni/nb_celp.c:1232-1419 | reads exactly the decoder's fields, in order, or runs out; then the fields past the end are 0, and the one the packet breaks off in is 0 or its sign bit alone |
| Fields.WbDecodeBody | jni/sb_celp.c:964-1072 | the same for the fields of the layer |
| Framing.PassConsumes | jni/nb_celp.c:1128-1194 | a pass of the header loop that goes on has consumed at least ten bits, one that finds a frame five: the loop ends on every bit string |
| Framing.SkipLayer | jni/nb_celp.c:1132-1145 | skips by the table, which moves back over the layer bit for the zero entries |
| Framing.FindLayerEnd | jni/nb_celp.c:1129-1172 | past at most two layers; what it returns on a short or corrupt packet |
| Framing.InBandHandler | jni/speex_callbacks.c:43-73 | an unregistered request consumes its 4-bit number and the size that number implies |
| Framing.UserHandler | jni/speex_callbacks.c:139-144 | a user request consumes its length, 5 bits and so many bytes |
| Framing.RequestSizes | jni/speex_callbacks.c:56-70 | two requests of 1 bit, six of 4, and two each of 8, 16, 32 and 64 |
| Framing.UserSizes | jni/speex_callbacks.c:139-144 | a user request has 5 bits and whole bytes |
| Framing.OnePass | jni/nb_celp.c:1128-1194 | one pass of the loop on every bit string and cursor: found, again, or the code returned |
| Framing.NextFrame | jni/nb_celp.c:1127-1197 | the whole loop: the submode of the next frame and the cursor behind it, or the negative code |
| Packets.OneLayer | jni/nb_celp.c:1132-1149 | a wideband layer of submode 1 to 4 changes nothing in what follows |
| Packets.TwoLayers | jni/nb_celp.c:1150-1162 | neither do two |
| Packets.ThreeLayers | jni/nb_celp.c:1162-1167 | three are rejected as corrupt |
| Packets.OddLayer | jni/nb_celp.c:1082-1167 | a layer of submode 0 or 5 to 7 is rejected as corrupt |
| Packets.OddSecond | jni/nb_celp.c:1129-1172 | so is one behind a layer that was skipped, unless the packet ends with it: then there is nothing more |
| Packets.SkippedExactly | jni/nb_celp.c:1082-1167 | a layer is skipped exactly when its submode is 1 to 4 |
| Packets.RequestStep | jni/nb_celp.c:1178-1187 | any unregistered in-band or user request changes nothing in what follows |
| Packets.PaddingStops | jni/nb_celp.c:1128-1177 | padding of 0 to 7 bits is never taken for a frame (RFC 5574 section 3.3) |
| Packets.StreamParses | jni/nb_celp.c:1127-1197 | any stream of frames, layers and requests, closed by the terminator, is parsed back to exactly its frames and then -1 |
| Packets.EncodePacket | jni/nb_celp.c:538-911 | several frames into one packet, each appended whole (RFC 5574 section 3.5) |
| Packets.NbDecode | jni/nb_celp.c:1084-1419 | the fields of the next frame; code 0 with overflow set when the packet ends inside it |
| Packets.DecodePacket | jni/nb_celp.c:1084-1419 | decoding until a non-zero code gives the frames of the packet, on every bit string |
| Wideband.PlainPacket | jni/nb_celp.c:1127-1197 | a narrowband decoder reads every frame of a packet without silent layers, wideband layers or not |
| Wideband.SilentFrame | jni/sb_celp.c:503-510 | a frame with a silent layer is read by a narrowband decoder and nothing after it |
| Wideband.NarrowbandReadsAll | jni/nb_celp.c:1082-1167 | a narrowband decoder reads all frames exactly when none before the last carries a silent layer |
| WbDecoder.LayerRoundTrip | jni/sb_celp.c:914-1072 | a layer is read back, whatever its submode |
| WbDecoder.SbDecodeLayer | jni/sb_celp.c:914-1072 | the layer's fields, a short packet, or an invalid submode, on every bit string |
| WbDecoder.WidebandReadsAll | jni/sb_celp.c:873-1072 | a wideband decoder reads every packet back, silent layers included |
| WbDecoder.SbDecodePacket | jni/sb_celp.c:873-1072 | decoding until a non-zero code gives the frames and layers of the packet, on every bit string |
| WbDecoder.SendPacket | jni/bits.c:188-209 | reset, encode, write: the bytes are the packet and its padding, as far as they fit |
| WbDecoder.RoundTrip | jni/sb_celp.c:304-1072 | a packet sent and received: the wideband decoder gets every frame and layer, the narrowband decoder every frame if none is silent |
| Ultra.UwbEncode | jni/sb_celp.c:304-728 | an encoder over an encoder: the narrowband frame and two layers, appended whole |
| Ultra.UwbStepReads | jni/sb_celp.c:873-1072 | a decoder over a decoder reads such a frame back, whatever follows |
| Ultra.UwbReadsAll | jni/sb_celp.c:873-1072 | and a whole packet of them, silent layers included |
| Ultra.WidebandReads | jni/sb_celp.c:873-1072 | of any packet a wideband decoder reads exactly the wideband parts up to the first frame with a silent upper layer, that frame included |
| Ultra.NarrowbandReads | jni/nb_celp.c:1127-1197 | a narrowband decoder exactly the narrowband parts up to the first frame with a silent layer of either kind |
| Ultra.WidebandReadsUltra | jni/sb_celp.c:873-1072 | so a wideband decoder reads all wideband parts exactly when no frame before the last has a silent upper layer |
| Ultra.NarrowbandReadsUltra | jni/nb_celp.c:1127-1197 | and a narrowband decoder all narrowband parts exactly when no frame before the last has a silent layer |
| Ultra.UwbDecode | jni/sb_celp.c:873-1072 | the nested decoder, on every bit string |
| Lsp.LspToLpc | jni/lsp.c:522-586 | the clocked in-place cascade writes the coefficients of half the sum of the two products of sections |
| Lsp.PredictorIsHalfSum | jni/lsp.c:522-586 | those coefficients are, at every z, half of (1+z) times the product over even LSPs of 1-2xz+z^2 plus (1-z) times the product over odd ones |
| Lsp.EvalProduct | jni/lsp.c:522-586 | the polynomial the cascade multiplies out has the value of the product of its factors |
| Lsp.ClockAll | jni/lsp.c:559-574 | one clock moves every section on by one sample of the impulse through the sections before it |
| Lsp.ChebPolyEva | jni/lsp.c:177-197 | the backward recurrence evaluates the Chebyshev series |
| Lsp.ChebPolyForward | jni/lsp.c:140-172 | the forward recurrence evaluates the same series |
| QuantLsp.MacParts | jni/quant_lsp.c:144 | the split Q15 multiplication is the product divided by 2^15, rounded down |
| QuantLsp.GapIsNearer | jni/quant_lsp.c:71-94 | between ordered angles the gap is the distance to the nearer neighbour, 0 and 25736 at the ends |
| QuantLsp.CloserWeighsMore | jni/quant_lsp.c:71-94 | ordered angles have weights from 3 to 273, and the closer one is to a neighbour the more it weighs |
| QuantLsp.ComputeQuantWeights | jni/quant_lsp.c:71-94 | each weight is 81920 over 300 and the smaller gap, with the 16-bit wraps; no divisor may be 0 |
| QuantLsp.DistanceGrows | jni/quant_lsp.c:107-112 | each value adds the square of how far it is from 32 times the codebook value |
| QuantLsp.DistanceZero | jni/quant_lsp.c:98-120 | the true distance is 0 exactly at the codeword |
| QuantLsp.NearestIsTrue | jni/quant_lsp.c:98-120 | for up to ten values of at most 10000 no distance wraps, so the entry chosen is nearest in true squared distance, the lowest of those as near |
| QuantLsp.LspQuant | jni/quant_lsp.c:98-125 | the lowest of the entries at least squared distance in 32 bits (entry 0 if none is below the start value), taken off x in place |
| QuantLsp.LspWeightQuant | jni/quant_lsp.c:130-156 | the same by weighted distance |
| QuantLsp.RunStage | jni/quant_lsp.c:177-199 | a search, its index packed in 6 bits and what it leaves doubled where the next stage is finer |
| QuantLsp.StageSees | jni/quant_lsp.c:159-211 | a search sees no value and no weight but those it covers |
| QuantLsp.LspQuantNb | jni/quant_lsp.c:159-211 | every search chose an entry nearest to what those before it left; 30 bits are packed; the values kept are the input less the shifted residual |
| QuantLsp.LspQuantLbr | jni/quant_lsp.c:242-281 | the same in three searches and 18 bits |
| QuantLsp.LspQuantHigh | jni/quant_lsp.c:319-364 | the same in two searches and 12 bits |
| QuantLsp.LspUnquantNb | jni/quant_lsp.c:213-239 | the sum of the start value and the scaled entries of the indices read, 0 for those past the end |
| QuantLsp.LspUnquantLbr | jni/quant_lsp.c:283-302 | the same for three indices |
| QuantLsp.LspUnquantHigh | jni/quant_lsp.c:366-382 | the same for two indices |
| QuantLsp.IdsRoundTrip | jni/quant_lsp.c:159-239 | indices are read back from their bits, whatever follows |
| QuantLsp.DecodedFits | jni/quant_lsp.c:213-239 | no value the decoder builds leaves 16 bits, for any codebook contents |
| QuantLsp.ResidualIsDistance | jni/quant_lsp.c:170-199 | after every search the residual is the distance from what the decoder has, scaled up, modulo 2^16 |
| QuantLsp.ShiftExact | jni/quant_lsp.c:201-210 | the final rounding shift gives back what the decoder has exactly when the residual it shifts fits 16 bits |
| QuantLsp.NbAgrees | jni/quant_lsp.c:159-239 | the value the encoder keeps is the one the decoder rebuilds exactly when the error is in -8192 to 8191 |
| QuantLsp.LbrAgrees | jni/quant_lsp.c:242-302 | the same for -16384 to 16383 |
| QuantLsp.HighAgrees | jni/quant_lsp.c:319-382 | the same for the high band |
| LspAgree.NbAlwaysSame | jni/quant_lsp.c:159-239 | encoder and decoder agree on value k for all codebooks and indices exactly when the input is from 1080 below its start value to 1023 above |
| LspAgree.LbrAlwaysSame | jni/quant_lsp.c:242-302 | the same at the low bit rate for 10288 below to 10239 above |
| LspAgree.HighAlwaysSame | jni/quant_lsp.c:319-382 | the same for the high band |
| LspAgree.NeverSame | jni/quant_lsp.c:159-302 | a first LSP of 25000 is kept as it is rebuilt by no codebooks and no indices, in the narrowband and the low-rate scheme |
| LspAgree.HighNotSame | jni/quant_lsp.c:319-382 | codebooks for which it is not in the high band |
| LspAgree.NbRoundTrip | jni/quant_lsp.c:159-239 | through the packed bits: each value kept is the one received exactly when it is within one radian of the input |
| LspAgree.LbrRoundTrip | jni/quant_lsp.c:242-302 | the same within two radians |
| LspAgree.HighRoundTrip | jni/quant_lsp.c:319-382 | the same for the high band |
| LspFloat.RealQuantWeights | jni/quant_lsp.c:71-94 | each weight is 10 over 0.04 and the smaller gap |
| LspFloat.RealGapIsNearer | jni/quant_lsp.c:71-94 | the gap is the distance to the nearer neighbour |
| LspFloat.WeightMeans | jni/quant_lsp.c:89-93 | the weight times the gap and 0.04 is 10, so it falls from 250 as the gap grows |
| LspFloat.DistanceIsSum | jni/quant_lsp.c:98-156 | what a search compares is the sum of the squared differences, weighted or not |
| LspFloat.SameStart | jni/quant_lsp.c:50-69 | the start values are those of the fixed-point build, in radians |
| LspFloat.RealSearch | jni/quant_lsp.c:98-156 | in floating point: the lowest of the nearest entries, by weighted distance or plain, taken off x in place and doubled where the stage says so |
| LspFloat.NbQuant | jni/quant_lsp.c:159-211 | in floating point: five searches, each of a nearest entry, 30 bits, and the input less the scaled residual |
| LspFloat.NbUnquant | jni/quant_lsp.c:213-239 | in floating point: the start value and the scaled entries of the indices read |
| LspFloat.NbDrift | jni/quant_lsp.c:59-69 | the exact difference between what encoder and decoder hold for any indices; equal exactly when 128 times the distance from the start value and the first two entries cancel |
| LspFloat.LbrDrift | jni/quant_lsp.c:59-69 | at the low bit rate 12.8 millionths of the distance from the start value: equal exactly when the input is that value |
| LspFloat.HighDrift | jni/quant_lsp.c:59-69 | the same for the high band |
| LspFloat.NbSent | jni/quant_lsp.c:159-239 | the narrowband difference through the packed bits, between the loops of both sides |
| LspFloat.LbrSent | jni/quant_lsp.c:242-302 | the low-rate difference through the packed bits |
| LspFloat.HighSent | jni/quant_lsp.c:319-382 | the high-band difference through the packed bits |
| TimeScale.AmdfPitch | jni/time_scale.c:61-83 | the first lag with the least absolute difference |
| TimeScale.AmdfNext | jni/time_scale.c:72-76 | each sample adds how far it is from the one a lag later |
| TimeScale.AmdfZero | jni/time_scale.c:61-83 | there is no difference at a lag exactly if the signal repeats at it |
| TimeScale.AmdfTurned | jni/time_scale.c:61-83 | a signal raised by a constant and turned upside down has the same differences |
| TimeScale.PeriodFound | jni/time_scale.c:61-83 | where the signal repeats at some lag in range, the pitch is the shortest such lag; otherwise it is none |
| TimeScale.PitchTurned | jni/time_scale.c:61-83 | the pitch does not depend on which way up the signal is |
| TimeScale.PeriodicEdit | jni/time_scale.c:267-288 | where two periods are equal, an edit adds one more or takes one away and changes nothing else |
| TimeScale.OverlapAdd | jni/time_scale.c:86-100 | a linear cross-fade, in place, and nothing else changed |
| TimeScale.FadedSample | jni/time_scale.c:86-100 | a cross-fade of 16-bit samples is a 16-bit sample |
| TimeScale.TimeScaleState.SetRate | jni/time_scale.c:103-126 | rejects rates not above 0, snaps rates near 1 to 1 and clears the promise then |
| TimeScale.TimeScaleState.Init | jni/time_scale.c:129-159 | no state exactly for a sample rate above the maximum or a rate not above 0; else, from 250 samples a second on, an empty valid one that owes nothing, and below that one whose shortest pitch period is empty |
| TimeScale.Promise | jni/time_scale.c:251-266 | promise less nudge is exact, the promise is not negative and the nudge stays within a half |
| TimeScale.CopyLevel | jni/time_scale.c:210-244 | copying keeps the balance of output, input, buffer and promise |
| TimeScale.DropLevel | jni/time_scale.c:267-281 | dropping a period keeps it |
| TimeScale.InsertLevel | jni/time_scale.c:282-288 | inserting a period keeps it |
| TimeScale.TimeScaleState.CopyOut | jni/time_scale.c:210-244 | copies promised samples out and refills; the stream of output, buffer and unread input is unchanged |
| TimeScale.TimeScaleState.Change | jni/time_scale.c:245-289 | inserts or drops one best-fitting period at the front of the buffered stream; a round that takes and promises nothing lowers the nudge by at least a whole step |
| TimeScale.FadedStill | jni/time_scale.c:86-100 | a fade k into p leaves sample a alone exactly when b differs from it by less than p / k and does not lie on the side of 0 from it |
| TimeScale.DropIsNoFade | jni/time_scale.c:267-281 | dropping equals the intended cross-fade exactly when that holds of the samples k into the two periods, for every k |
| TimeScale.DropExample | jni/time_scale.c:267-281 | four samples for which it does not |
| TimeScale.TimeScaleState.Rounds | jni/time_scale.c:210-290 | the main loop ends at every rate above 0, takes all input and leaves the buffer not full |
| TimeScale.TimeScaleState.Scale | jni/time_scale.c:175-292 | one call: all input taken, exact balance, output followed by buffer is the old buffer and the input with periods inserted or dropped, 16-bit samples throughout; how much comes out, and what is left and promised, is a function of the sizes and the pitch of each edit |
| TimeScale.Run | jni/time_scale.c:175-292 | over every run at a fixed rate: total output = rate * (total input - fill) + (rate - 1) * (lcp - rate_nudge) |
| TimeScale.NoDrift | jni/time_scale.c:175-292 | so the output length stays within a constant of the ideal one, however long the run |
| TimeScale.OutputBound | jni/time_scale.c:175-292 | a bound on one call's output that counts the buffered samples as input |
| OutputLen.MaxKept | jni/time_scale.c:295-298 | the promised length holds whenever enough is owed before the call |
| OutputLen.LittleBuffered | jni/time_scale.c:295-298 | which is so whenever little is buffered, whatever is promised |
| OutputLen.AtLeast | jni/time_scale.c:210-290 | a call that goes past its promise brings all of it out, and when slowing down a period more |
| OutputLen.Measured | jni/time_scale.c:175-298 | one call against the promised length: at rate 1 it holds exactly when at most min_pitch + 1 samples were buffered; at other rates exactly when what is owed grows by at most that much, and, from the state before the call, exactly decided where the input ends within the promise or that of the first edit; otherwise a condition that keeps it and one that breaks it |
| OutputLen.Overrun | jni/time_scale.c:175-298 | from a fresh state, calls of 266, 265 and 1 samples at rate 1.02: the last brings out 266 where 135 are announced |
| OutputLen.OverrunAtOne | jni/time_scale.c:175-298 | from a fresh state, 200 samples at rate 1.5 and a return to rate 1: every call brings out more than announced |
| PlayoutSpec.PutKeepsOrder | jni/playout.c:252-295 | putting a frame keeps the relative order of the others |
| PlayoutSpec.PutSorted | jni/playout.c:252-295 | a sorted queue stays sorted exactly when the new stamp is not strictly between the first two |
| PlayoutSpec.PutOutOfOrder | jni/playout.c:252-295 | three frames that are queued out of order |
| PlayoutSpec.LeakInRange | jni/playout.c:128-130 | one step keeps an integrator in 0 to 0x10000000, rising on a hit and falling otherwise |
| PlayoutSpec.LeakMoves | jni/playout.c:128-130 | a 256th of the way up or down, rounded down |
| PlayoutSpec.ThreeLate | jni/playout.c:128-133 | it takes three late frames in a row to be too many |
| PlayoutSpec.TargetMoves | jni/playout.c:133-178 | exactly when the target rises and falls, and by how much: three frames or one up, one down |
| PlayoutSpec.CountsFrames | jni/playout.c:133-178 | the frames since the last change are counted, with the wrap of 32 bits |
| PlayoutSpec.FirstShrinks | jni/playout.c:308-330 | the first speech frame takes a frame off every fresh buffer whose target is above the minimum |
| PlayoutSpec.TargetInRange | jni/playout.c:106-222 | over every run with frames of length L the target stays between L below the minimum and 3 L above the maximum, or where it was |
| PlayoutSpec.NeverPlayed | jni/playout.c:48-222 | over every run of a regular stream, where the minimum length is not a whole number of frames: no more frames are played than times the target rises, and by a buffer of fixed length none |
| PlayoutSpec.AllPlayed | jni/playout.c:48-222 | a buffer of fixed length that is a whole number of frames plays all frames of a regular stream in order, after waiting for that number, with none late and no more missing |
| PlayoutSpec.OutOfSequence | jni/playout.c:225-295 | the frames counted out of sequence are those that do not go to the back |
| PlayoutSpec.LateAreDropped | jni/playout.c:106-222 | over every run the frames counted late are those dropped; each takes back one counted missing |
| PlayoutSpec.FramesBalance | jni/playout.c:88-305 | over every run, frames in less out less queued changes only by unconditional gets |
| PlayoutSpec.MissingAndLate | jni/playout.c:106-222 | over every run, frames missing plus late grow by exactly the fill-ins asked for |
| PlayoutSpec.StampAdvances | jni/playout.c:106-222 | over every run with one frame length L, stamp plus target advance by L per speech frame delivered or fill-in |
| PlayoutSpec.ExpectedAdvances | jni/playout.c:119-179 | once primed, latest expected less target advances by L per speech frame taken |
| PlayoutSpec.IntegratorsInRange | jni/playout.c:119-179 | both integrators stay in range in every run of a restarted buffer |
| PlayoutSpec.FramesConserved | jni/playout.c:88-305 | over every run, the frames put and those delivered or still queued are the same multiset |
| Playout.PlayoutState.QueueGet | jni/playout.c:48-73 | unlinks the first frame exactly if it is due; links stay mutually inverse |
| Playout.PlayoutState.AdaptDelay | jni/playout.c:119-179 | the delay adaptation is that of the state machine |
| Playout.PlayoutState.Get | jni/playout.c:106-222 | refines the get of the state machine; a delivered frame moves from the queue to the free list |
| Playout.PlayoutState.GetUnconditional | jni/playout.c:88-103 | takes the first frame, due or not, onto the free list |
| Playout.PlayoutState.Enqueue | jni/playout.c:252-295 | links the frame in where the scan says, counting it out of sequence if earlier than the last |
| Playout.PlayoutState.Put | jni/playout.c:225-305 | refines the put of the state machine; queue and free list stay disjoint and well linked |
| Playout.Replay | jni/playout.c:48-305 | any list of calls, replayed on the linked buffer, ends in the state of the state machine after the same list and hands out the same frames |
| Plc.PlcState.SaveHistory | jni/plc.c:55-76 | the ring, read from its pointer, moves on by the new samples, however many |
| Plc.PlcState.NormaliseHistory | jni/plc.c:79-89 | turns the ring to start at 0 and keeps what it holds |
| Plc.PlcState.Rx | jni/plc.c:117-158 | real samples pass, after a gap the first quarter period faded in; the history is the last 280 samples played |
| Plc.RintNearest | jni/spandsp/saturated.h:83-90 | rounding gives a nearest integer, the even one of two |
| Plc.FadedInMeans | jni/plc.c:137-152 | a faded sample is nearest to the point k + 1 of n on the way from the synthetic sample, at its volume, to the real one; the last is the real one |
| Plc.ResumedBetween | jni/plc.c:137-152 | so it lies between the two, up to rounding |
| Plc.ResumedFromSilence | jni/plc.c:137-152 | after 400 missing samples it is nearest to k + 1 parts in n of the real one |
| Plc.PlcState.Fillin | jni/plc.c:161-234 | the first samples of a gap blend the reversed history into the best-fitting cycle, the rest repeat it decaying; the history is again the last 280 samples played |
| Plc.PlcState.CookCycle | jni/plc.c:179-195 | the cycle repeated is the last period, its end blended into the period before |
| Plc.PlcState.Onset | jni/plc.c:199-215 | the first quarter period blends the reversed history with the cycle |
| Plc.PitchMeans | jni/plc.c:93-115 | the pitch is the lag from 40 to 120 at which 160 samples differ least, the shortest of those; where the history repeats at such a lag, it repeats at the pitch |
| Plc.OnsetMeans | jni/plc.c:199-215 | a sample of the onset is nearest to the point k + 1 of n from the history, backwards, to the cycle |
| Plc.CycleMeans | jni/plc.c:179-195 | the last quarter of the cycle goes over into the period before, so that where it starts again the signal goes on as in the history |
| Plc.SyntheticMeans | jni/plc.c:217-230 | a repeated sample is the cycle at a volume that falls by a 400th a sample, cut toward zero |
| Plc.Gap | jni/plc.c:161-234 | a gap over any number of calls: every sample of it, from the history before it; silent from its 400th sample on, or from 400 after the onset while the first call lasts |
| Plc.FadedAway | jni/plc.c:217-230 | past the onset a sample is 0 exactly when the volume is gone, or what it leaves of the cycle is below one step |

## Left out

Not modelled:

- Assembly, SIMD and fixed-point variants of the signal code: the portable floating-point branches are modelled, and the fixed-point branches of `jni/quant_lsp.c` and of `cheb_poly_eva`.
- JNI glue, logging, the Java side, `vbr.c`, `preprocess.c`, the adaptive part of `mdf.c`, `filterbank.c`, `stereo.c`, `lpc.c` and the QMF bank: plumbing, tuning without a crisp specification, or only approximate reconstruction.
- Rounding of floats: signal values are exact reals, and the added `VERY_SMALL` of the impulse response is 0. Cosines and sines are a table with the laws of roots of unity, and LSPs enter `Lsp` as the cosines already taken.
- Contents of codebooks, gain tables and windows: any tables of the right size.
- Encoder decisions (submode, quality, field values): inputs; of the open-loop search, the gain output, which `pitch_search_3tap` does not ask for. What the decoders synthesise from the fields is modelled for pitch and innovation only.
- Registered in-band callbacks: the default behaviour, skipping, is modelled.
- Allocation failure; `speex_fatal` is a result of false; `unpack_signed`, `peek_unsigned` and `set_bit_buffer`, `playout_restart` of a queue in use, and the get and set switches: easy members.
- Packing again after `speex_bits_write` without a reset, which the terminator left in the last byte forbids.

Stated weaker than the code, or under conditions:

- Twiddles.SmallTables: only 1, 2 and 4 entries; other sizes need roots of unity with irrational parts, for which the language offers no construction.
- OutputLen.Measured: for a call that makes several edits, a sufficient and a necessary condition, since the pitch of each edit depends on the samples.
- KissFft.KissFftState.Stride: needs a table that satisfies the laws of roots of unity, sizes below 2^31, and buffers that hold the values read and written.
- Bits.SpeexBits.InsertTerminator: not for a borrowed buffer with bits in its last byte, where the loop of the code does not end.
- Bits.SpeexBits.ReadWholeBytes: borrowed buffers only when the bytes fit; the new bytes are placed by whole bytes, so nothing is lost only when the stream so far is whole bytes.
- CbSearch.BeamSearch: the rows `ot`, `nt`, `oind` and `nind` are values, so the swap of pointers is not modelled; paths whose distance reaches `VERY_LARGE32` carry no promise.
- Innovation.SplitCbSearchShapeSign: needs as many codewords as the beam is wide, since the code reads unset list entries otherwise; the distance is not an output of the code and is a ghost result here; the one-best form packs its indices after its loop instead of inside it, and is described as greedy, without a distance of its own; the buffer is required apart from the sample arrays, as the types already say.
- Ltp.InnerProd: the code drops the last values of a length that is not a multiple of 4, and the model does too.
- Ltp.PitchSearch3tap: for a response cut short, as at complexity 0, the error and the rest are those the search measures, not those of the filtered excitation; its candidates are an input, which `OpenLoop.PitchSearch` supplies; its cumulative gain reads the first part of the gain table whatever the offset, as in the code.
- GainRun.SearchRun: for the first part of each gain table, which is the one the encoder uses; the tables themselves are not part of the model, only that they hold signed bytes and start with a sum of at most 31.
- Ltp.PitchUnquant3tap: a nonnegative last gain is required, as the decoder's always is, being an average of one-tap gains; a negative one could divide by 0.
- OpenLoop.OpenLoopNbestPitch: at most as many candidates as there are lags, as its caller sees to.
- OpenLoop.EnergyIsPower: for other lengths the first energy lacks the last few squares, which the inner product drops; `PitchEnergies` gives the energies as they are then, too.
- Lsp.LspToLpc: even orders, from 2 on.
- Lsp.ChebPolyForward: the recurrence of the fixed-point branch over exact reals, without its scaling.
- QuantLsp.LspQuantNb: orders are the 10 and 8 the modes use; no weight may divide by 0, which angles in order never do; the rounding shift is taken before its cast, which never changes it.
- LspFloat.RealQuantWeights: a divisor of 0, which is infinity in floating point, is left out.
- QuantLsp.NbAgrees: for LSPs from 0 to 32767, which angles are; no claim that the error is in fact that small.
- TimeScale.TimeScaleState.Scale: for states of at least 250 samples a second, since below that a period of 0 samples fits best; sample counts and total lengths are unbounded.
- TimeScale.TimeScaleState.Init: a sample rate is not negative.
- TimeScale.TimeScaleState.Round: overlapping `memcpy` is taken as a forward move.
- PlayoutSpec.LeakInRange: the shift of a negative number rounds down, as on every target of the code; counters other than `since_last_step` are unbounded, and time stamps do not wrap.
- Playout.PlayoutState.Get: the frame goes on the free list before the delay is adapted, where the code does so after; neither step reads what the other writes.
- Plc.PlcState.Rx: a length of 0 after a gap, which would divide by 0, fades nothing.
- Plc.PlcState.Fillin: the buffer holds at least 30 samples, since the first quarter period is written whatever the length; the weights are exact reals.
