# A verified model of the receiver's audio path

The repository is the firmware of a network audio receiver. This project models, in Dafny, the parts of it whose
correctness is a matter of algorithms and protocols rather than of drivers, and proves what they are for:

- **Resampler** (`Convolution`, `FilterBank`, `Bank`, `WindowedSinc`, `FixedRatio`, `Automaton`, `Stream`, `Samples`,
  `Resampler`): the streaming windowed-sinc resampler. `Stream` is the machine on an unbounded stream, `Resampler` the
  buffered code that refines it, `Automaton` the small position machine the source documents.
- **SD player** (`SharedRing`, `RingBuffer`, `Player`, `Progress`, `Skips`, `PlayerTraces`, `Pcm`): the lock-free byte
  ring, the handover of that ring between the file reader and the player across tracks, skips and stops, and the
  in-place sample conversions. The two tasks are interleaved step by step; every access to a shared variable and every
  copied byte is one step.
- **Names and paths on the card** (`Gbk`, `GbkConverter`, `SdPath`): conversion between GBK and UTF-8 and the funnel
  that every path goes through.
- **Tags** (`Tags`, `TagReader`): ID3v2 and FLAC comment parsing.
- **Amplifier drivers** (`HybridFlow`, `FlowResidency`, `Tas57xx`, `EqChain`, `EqLaws`, `Tas58xx`): the recogniser for
  DSP programs, keeping such a program resident in volatile memory, and the ownership of the fifteen biquad slots.
- **Display** (`DirtyRows`, `Display`): the row cache of the panel.

Modules come in pairs where the source updates things in place: a specification on values, about which the laws are
proved, and a class or methods on arrays that are proved to compute it. Sample values and positions are `real`; rounding
appears only where the source makes a claim about it (the error diffusion of the filter taps). Interleavings are
sequentially consistent.

## What the proofs say about the code and its comments

- The player's comment at its end-of-track test says that the file has been read and the buffer played out. The two
  tests are separate reads of shared state, and the claim holds exactly if the ring is still empty when the second one
  is made (`Player.DeliveredIfRingEmpty`); `PlayerTraces.UnplayedTrackEnds` is a run in which a whole file is given up
  unplayed. What holds in every run is that the bytes taken are a prefix of the current file.
- A skip is meant to move to its target. What becomes of one call, in any interleaving and with any stops, is this.
  The request is lost exactly if the player never looks for requests after it was stored
  (`Skips.RequestIsLostIfUnseen`): then nothing moves (`Skips.LostRequestMovesNothing`), and
  `PlayerTraces.LostRequestMovesNone` is such a run, at the end of the last track. For a request that is consumed
  there are three outcomes, each under exactly its own condition (`Skips.SkipOutcome`). The target begins next if the
  request was consumed between tracks, or the player was not halted (stopped, failed, or a reader did not go in time)
  and noted that the reader was cut off. Without halt and cut-off the track after the target begins, if there is one.
  And else the player ends. The cut-off is noted exactly if it is stored between the two points where the player
  clears the sign and looks at it (`Skips.CutOffIsSeenIfInTime`). There are two windows outside: before the reader of
  the track starts (`PlayerTraces.LostSkipMovesTwo`; `PlayerTraces.LostCutOffEndsList` ends the list instead of
  beginning its last track), and after the player has consumed the request and looked at the sign
  (`PlayerTraces.LateCutMovesTwo`).
- Unity gain at DC is met by every filter but the two edge filters unconditionally; these have an outlying tap
  cleared, and their gain is short of that by exactly what was cleared (`Bank.DcGain`). That is nothing for a sinc
  without a low-pass (`Bank.ImpulseBankHasUnityDcGain`, `WindowedSinc.FirstFilterStartsWithImpulse`). With one,
  nothing is lost exactly if the window is Hann's or the sinc vanishes at its edge
  (`WindowedSinc.SincEdgeGainIsUnity`), and `WindowedSinc.QuarterLowpassMissesUnity` is a design that misses unity
  gain.
- The amplifier driver writes the defaults of the signal path once, when a chip first leaves its built-in
  coefficients, and takes note of that whether or not the chip's memory can be reached. A playing chip has them
  exactly if, since its last wake from deep sleep, it was not put to sleep or first programmed out of reach
  (`EqChain.PlayingChipHasDefaults`); setting the equaliser before the clocks start loses them
  (`EqChain.EarlyCurveLosesDefaults`).
- Converting a path to GBK works part by part exactly when no slash is written overlong (`SdPath.SplitCommutes`);
  well-formed UTF-8 never is (`SdPath.WellFormedPath`).
- The path check is meant to keep paths below the mount point by refusing ".." parts. It looks at bytes, while the
  conversion decodes, overlong forms included. The full path of an accepted path has no ".." part exactly if the decoded
  path, up to its first NUL, has none (`SdPath.FullPathHasDotDotIfDecodedHas`). Well-formed UTF-8 never has one
  (`SdPath.FullPathStaysBelowMountPoint`), but the check accepts other byte strings too, and for one of these the
  property fails (`SdPath.OverlongPathHasDotDot`).
- The check also refuses control characters and backslashes. What a full path has of them is exactly what the decoded
  path has, and the backslashes that are the second byte of a GBK code (`SdPath.FullPathCharacters`). With well-formed
  UTF-8 only the latter are left (`SdPath.WellFormedPathCharacters`), and those do occur
  (`SdPath.BackslashFromTrail`).
- Trimming a tag's text removes NULs before space, each once, so a NUL that stands before trailing space is left; and a
  second byte order mark is. For every other text what remains needs no more trimming (`Tags.TrimsCompletely`).

## Model

| member | source | states |
|---|---|---|
| Convolution.ApplyFilterPlain | components/audio-resampler/resampler.c:1237-1247 | the reference loop is the dot product of the taps and the window, and reads only that window |
| Convolution.ApplyFilterOutsideIn | components/audio-resampler/resampler.c:1264-1278 | accumulating from both ends inwards gives the same dot product for every even tap count |
| Convolution.ApplyFilterUnrolled | components/audio-resampler/resampler.c:1294-1306 | the two-fold unrolled outside-in loop gives the same dot product for every multiple of four taps |
| FilterBank.Normalise | components/audio-resampler/resampler.c:1352-1371 | the zig-zag order stores every tap exactly once, and by carrying the rounding error along the stored taps sum to the ideal sum within one rounding, whatever their number |
| FilterBank.InitFilter | components/audio-resampler/resampler.c:1325-1372 | every filter is filled completely with DC gain 1 within one rounding, given a non-zero sum of the raw taps |
| Bank.BuildBank | components/audio-resampler/resampler.c:183-212 | building all filters and the extra one yields a bank whose edge filters are shifted copies of each other, whatever the design |
| Bank.DcGain | components/audio-resampler/resampler.c:188-212 | the DC gain of each filter: 1 within one rounding, except for what the cleared outliers of the edge filters take away |
| Bank.BankHasUnityDcGain | components/audio-resampler/resampler.c:183-212 | the same for the bank that any design is turned into |
| Bank.BankTapIsNear | components/audio-resampler/resampler.c:1352-1371 | every stored tap of the inner filters is within two roundings of its design |
| Bank.ImpulseBankHasUnityDcGain | components/audio-resampler/resampler.c:183-212 | with an impulse as first filter nothing is lost at the edges, and every filter of the bank, the extra one included, has unity DC gain |
| Bank.EdgeGainIsUnity | components/audio-resampler/resampler.c:183-212 | stored exactly, the edge filters have unity DC gain exactly if the design has nothing at the outermost tap of filter 0 |
| Bank.ExtraFilterIsNextSample | components/audio-resampler/resampler.c:199-212 | the extra filter at sample n equals filter 0 at sample n+1, for every window |
| Bank.FirstFilterIsImpulse | components/audio-resampler/resampler.c:1374-1384 | a first filter that starts as an impulse picks out one sample, so the shortcut for whole positions equals the full convolution |
| Bank.AlignedSubsamplesAgree | components/audio-resampler/resampler.c:1374-1397 | on a filter's own position the nearest-filter and the interpolated subsample are equal |
| Bank.LerpIsEven | components/audio-resampler/resampler.c:1386-1397 | interpolation goes from the one filter's value to the other's at an even pace |
| Bank.RoundingUpIsConsistent | components/audio-resampler/resampler.c:1374-1384 | rounding the phase up to the extra filter is what moving on to the next sample would give |
| WindowedSinc.FirstFilterStartsWithImpulse | components/audio-resampler/resampler.c:1325-1360 | for any sine that vanishes at multiples of pi, the sinc design without a low-pass starts with an impulse for every window kind |
| WindowedSinc.PeakIsBetweenTaps | components/audio-resampler/resampler.c:1325-1350 | the peak of filter i lies i / numFilters past tap numTaps / 2 - 1, and on either side the distances grow by one from tap to tap |
| WindowedSinc.TapsContinue | components/audio-resampler/resampler.c:183-206 | the taps continue from filter to filter: one filter past the last would be filter 0, one tap on |
| WindowedSinc.WindowAtPeakAndEdge | components/audio-resampler/resampler.c:1325-1350 | both windows are 1 at the peak; at the edge Hann's is 0 and Blackman-Harris's 0.00006 |
| WindowedSinc.WindowedIsQuotient | components/audio-resampler/resampler.c:1325-1350 | a tap times its angle is the sine times the window |
| WindowedSinc.SincEdgeGainIsUnity | components/audio-resampler/resampler.c:1325-1372 | for the windowed sinc that is so exactly for the Hann window, or where the low-passed sinc vanishes at its edge |
| WindowedSinc.QuarterLowpassMissesUnity | components/audio-resampler/resampler.c:1325-1372 | a concrete design, four taps with a low-pass at a quarter, whose edge filters miss unity gain |
| FixedRatio.Gcd | components/audio-resampler/resampler.c:1203-1211 | the loop computes the greatest common divisor: its divisors are exactly the common divisors |
| FixedRatio.PlanFixedRatio | components/audio-resampler/resampler.c:404-437 | when a fixed conversion is reduced to dest/gcd filters without interpolation, and when not |
| FixedRatio.PowerOfTwo | components/audio-resampler/resampler.c:431-435 | the bit test passes exactly the powers of two |
| FixedRatio.ConvertedInt | components/audio-resampler/resampler.c:420-426 | a negative limit on the filter count is as large as a limit can be |
| FixedRatio.StepIsWholeFilters | components/audio-resampler/resampler.c:420-437 | with dest/gcd filters every output step is a whole number of filters |
| FixedRatio.CutoffBelowNyquist | components/audio-resampler/resampler.c:407-463 | a low-pass frequency that is asked for is the cutoff of the design; a chosen one is below the destination's Nyquist frequency by at most a fifth |
| FixedRatio.ChosenIsLargest | components/audio-resampler/resampler.c:443-457 | the chosen cutoff leaves 7.5 filter widths, but no more than a fifth, and is not below the ratio |
| Automaton.PositionStaysNearZero | components/audio-resampler/resampler.c:1139-1166 | the documented automaton keeps -1 <= position < step through any number of reads and writes |
| Automaton.SplitSteps | components/audio-resampler/resampler.c:1148-1166 | running the automaton in two pieces is running it once, for every cut of input and space |
| Automaton.CountsFromReset | components/audio-resampler/resampler.c:1040-1118 | from reset, n inputs give exactly ceil(n*ratio) outputs and m outputs take exactly floor((m-1)/ratio)+1 inputs |
| Stream.ChunkingDoesNotMatter | components/audio-resampler/resampler.c:617-659 | any sequence of calls, however input and output space are cut, ends in the same state and emits the same frames as one call |
| Stream.OutputIsStreamSample | components/audio-resampler/resampler.c:617-659 | output k is the filter applied to the infinite stream (silence, then all input) k steps on, across every history move |
| Stream.ConversionIsStreamSample | components/audio-resampler/resampler.c:547-672 | from a fresh start, for any sequence of calls, output k is the filter applied to the silence and all input at k steps from the middle of the silence |
| Stream.RunStopsWhenDone | components/audio-resampler/resampler.c:617-659 | a run ends only with its output space used up, or with all input read and no output ready |
| Stream.DryRunsAreExact | components/audio-resampler/resampler.c:1049-1118 | from any reachable state the required input is enough and no more is read, and the expected output is what is emitted |
| Stream.FreshCounts | components/audio-resampler/resampler.c:1028-1118 | the exact counts from reset, of the run itself |
| Stream.RunStaysNearZero | components/audio-resampler/resampler.c:1139-1166 | every run at a fixed ratio keeps the position between -1 and 1/ratio |
| Stream.RunIsCovered | components/audio-resampler/resampler.c:618-651 | every frame of a run is subsampled where all taps fall on samples that have been received |
| Stream.SnapIsIdentity | components/audio-resampler/resampler.c:661-667 | on positions that fall on filters the final snap changes nothing |
| Stream.RunStaysAligned | components/audio-resampler/resampler.c:617-667 | with a step of whole filters every position of every run falls on a filter |
| Stream.AlignedSampleIsConvolution | components/audio-resampler/resampler.c:1374-1384 | at such a position the sample is the full convolution with the filter there, the shortcut included |
| Stream.AlignedNeedsNoInterpolation | components/audio-resampler/resampler.c:1374-1397 | at such a position the interpolating and the non-interpolating resampler give the same sample |
| Stream.AlignedConversionIsConvolution | components/audio-resampler/resampler.c:547-672 | with a step of whole filters, every sample of a whole conversion is the plain convolution with one filter, however the calls are cut |
| Samples.WholePositionIsFrame | components/audio-resampler/resampler.c:1374-1384 | without low-pass and interpolation, the frame at a whole position is the stream's frame there |
| Samples.UnitConversionReturnsInput | components/audio-resampler/resampler.c:547-672 | a conversion at the ratio 1 returns half a filter of silence and then its input, sample by sample, however the calls are cut |
| Samples.FilterRespondsWithTap | components/audio-resampler/resampler.c:1374-1397 | a filter responds to an impulse with the tap that lies on it: the middle one at the same sample, later ones for later impulses |
| Samples.NearestResponse | components/audio-resampler/resampler.c:1374-1384 | without interpolation, the response to an impulse is a tap of the filter nearest to the position, or the impulse itself where samples are read off directly |
| Samples.InterpolatedResponse | components/audio-resampler/resampler.c:1386-1397 | with interpolation, it is between the taps of the two filters around the position |
| Samples.NearestIsNearest | components/audio-resampler/resampler.c:1374-1384 | the filter chosen stands for a position that is off by at most half the distance of two filters |
| Samples.FiltersAreAround | components/audio-resampler/resampler.c:1386-1397 | the two filters interpolated between stand for positions around the one asked for |
| Samples.ResponseIsIdealTap | components/audio-resampler/resampler.c:1325-1384 | stored exactly, the response to an impulse is the designed tap |
| Samples.TapIsWindowedSinc | components/audio-resampler/resampler.c:1325-1350 | and that is the windowed sinc at the distance between the impulse and the filter's position, before normalisation |
| Samples.IdealTapIsNormalised | components/audio-resampler/resampler.c:1352-1371 | the designed tap is the raw one over the sum of its filter |
| Resampler.Resampler.constructor | components/audio-resampler/resampler.c:213-252 | a new resampler is the stream machine at rest on one filter length of silence |
| Resampler.Resampler.MoveHistory | components/audio-resampler/resampler.c:620-630 | the history move keeps the last filter length of the stream and the position in it |
| Resampler.Resampler.Subsample | components/audio-resampler/resampler.c:1374-1397 | a subsample of the buffer reads only received samples and is the stream's sample at that position |
| Resampler.Resampler.Process | components/audio-resampler/resampler.c:547-672 | the buffered loop computes exactly the run of the stream machine, state, input used and frames, and terminates |
| Resampler.Resampler.Reset | components/audio-resampler/resampler.c:490-507 | reset is the fresh stream machine again |
| Resampler.Resampler.GetRequiredSamples | components/audio-resampler/resampler.c:1049-1077 | the dry-run loop returns the number of inputs the run will need |
| Resampler.Resampler.GetExpectedOutput | components/audio-resampler/resampler.c:1079-1118 | the dry-run loop terminates and returns the number of outputs the run will make, with a flush request counted as half a filter of input |
| Resampler.Resampler.GetPosition | components/audio-resampler/resampler.c:1139-1170 | the reported position is the stream machine's: it does not show where the history stands in the buffer |
| Resampler.Resampler.AdvancePosition | components/audio-resampler/resampler.c:1128-1137 | an advance moves the position by exactly the distance asked for, or is refused, under the stated conditions |
| Resampler.ResampleInit | components/audio-resampler/resampler.c:153-252 | parameters out of range are refused, anything else gives a valid resampler with a realised filter bank |
| Resampler.DesignOfParameters | components/audio-resampler/resampler.c:153-180 | which sizes are allowed, and that the low-pass is on for a cutoff strictly between 0 and 1 |
| Resampler.ResampleFixedRatioInit | components/audio-resampler/resampler.c:404-470 | refused exactly for a low-pass above the destination's Nyquist frequency or a design out of range; the design has the cutoff asked for or chosen, and a reduced fixed-ratio resampler starts and steps on filters |
| Resampler.ReducedConversionIsConvolution | components/audio-resampler/resampler.c:404-470 | so every sample that a reduced fixed-ratio resampler emits is a plain convolution with one filter |
| SharedRing.Fifo | components/sd_player/sd_player.c:187-240 | in every interleaving the bytes read are a prefix of the bytes written, and indices and copies stay in the buffer |
| SharedRing.NeverOverwrites | components/sd_player/sd_player.c:198-240 | a byte about to be copied in never lands on one that is still unread, and all unread bytes are in place |
| SharedRing.NoDroppedBytes | components/sd_player/sd_player.c:535-562 | a write sized by an earlier look at the free space is never short |
| SharedRing.CheckGrantsRoom | components/sd_player/sd_player.c:198-205 | a write by itself is granted all that fits, or nothing if nothing does |
| SharedRing.AskGrantsFill | components/sd_player/sd_player.c:220-227 | and a read all that is there |
| SharedRing.WriterStaysBounded | components/sd_player/sd_player.c:198-246 | from any reachable state, with any number of resets between the steps of the writer, the indices and every copy stay in the buffer |
| SharedRing.UpsetIsReset | components/sd_player/sd_player.c:242-246 | the two stores of a reset zero the two indices |
| RingBuffer.RingBuffer.Write | components/sd_player/sd_player.c:198-218 | a write appends as much as there is room for, around the end of the buffer |
| RingBuffer.RingBuffer.Read | components/sd_player/sd_player.c:220-240 | a read takes the oldest bytes, as many as asked for and present |
| Player.TrackIsolation | components/sd_player/sd_player.c:515-740 | in every interleaving the bytes taken while a track is current are a prefix of its file, the ring holds only bytes of that file while the track is on, and tracks begin only inside the list |
| Player.DeliveredIfRingEmpty | components/sd_player/sd_player.c:715-726 | when the end of a track is found undisturbed, the reader has delivered the whole file, and the player has taken all of it exactly if the ring is still empty |
| Progress.PlayerTakesBytes | components/sd_player/sd_player.c:715-740 | with unread bytes in the ring, the player's own next moves take exactly the first of them, up to 64 KB, and hand them to the decoder |
| Progress.ReaderDeliversBytes | components/sd_player/sd_player.c:535-562 | with room in the ring and bytes left, the reader's own next moves put exactly the next bytes of the file into the ring, as many as fit, up to 8 KB |
| Progress.WholeFileIsTaken | components/sd_player/sd_player.c:515-740 | for every list, track and ring there is a run in which the player takes the whole of the track's file |
| Progress.ReaderWaitsIfFull | components/sd_player/sd_player.c:535-548 | with the ring full, the reader comes back to the top of its loop with nothing changed, and does not take it for the end of the file |
| Progress.PlayerWaitsIfEmpty | components/sd_player/sd_player.c:717-729 | with the ring empty and the reader at work, the player comes back to the top of its loop with nothing changed |
| Progress.EndedPlayerStopsReader | components/sd_player/sd_player.c:1001-1018 | in every run, a player that is done has left no reader behind, or has told it to stop and cut it off |
| Progress.RunningReaderIsThere | components/sd_player/sd_player.c:574-588 | in every run, the reader that is said to run is there |
| Progress.FailedOpenIsNoted | components/sd_player/sd_player.c:686-694 | a track whose decoder cannot be opened, undisturbed, is noted as failed |
| Progress.FailureEndsList | components/sd_player/sd_player.c:948-987 | after a failed track, or one whose reader does not go, the player goes to its end |
| Skips.CutOffIsSeenIfInTime | components/sd_player/sd_player.c:574-947 | while a track is on, whatever is interleaved, the player has its reader down as cut off exactly if the sign was stored between its clearing for the track and the player's look at it |
| Skips.SkipOutcome | components/sd_player/sd_player.c:492-987 | one skip that is consumed, in any interleaving with stops and cut-offs: its target begins next, the track after it begins, or the player ends without beginning another, each exactly under its own condition on where the request was consumed, halt, cut-off and the end of the list |
| Skips.SkipIsDecided | components/sd_player/sd_player.c:492-987 | between consumption and decision the target is current and the player is leaving the track; a player that ends has decided about every request it consumed |
| Skips.DecidedTrackBegins | components/sd_player/sd_player.c:659-671 | the track that is decided on begins with the player's next steps |
| Skips.RequestIsLostIfUnseen | components/sd_player/sd_player.c:660-717 | at any point of any run, and so at its end, a request that was stored is still there, not consumed, exactly if the player has not looked for requests since |
| Skips.LostRequestMovesNothing | components/sd_player/sd_player.c:660-987 | a player that ends with the request still there ends with the track that was current when the request was stored |
| Skips.EndedTrackIsLookedAfter | components/sd_player/sd_player.c:935-987 | at the end of a track the player goes on to another look exactly if it is not stopped, and the cut-off came in time or the track ended well and was not the last |
| Player.SkipsGoAround | components/sd_player/sd_player.c:492-508 | forward goes around the list, backward undoes it except at the ends |
| Player.MovesKeep | components/sd_player/sd_player.c:443-603 | every step of player, reader and callers keeps the handover invariant |
| PlayerTraces.UnplayedTrackEnds | components/sd_player/sd_player.c:719-726 | a concrete run, for a ring of any size, that gives up a track while its whole file is still in the ring |
| PlayerTraces.LostSkipMovesTwo | components/sd_player/sd_player.c:662-717 | a concrete run in which one skip forward moves from the first track to the third |
| PlayerTraces.LostCutOffEndsList | components/sd_player/sd_player.c:662-987 | a concrete run in which a skip forward from the last track but one, made before its reader starts, ends the list: the last track never begins |
| PlayerTraces.LateCutMovesTwo | components/sd_player/sd_player.c:706-947 | a concrete run in which one skip forward, made while the first track is on, moves to the third: its last store comes after the player's look at the sign |
| PlayerTraces.LostRequestMovesNone | components/sd_player/sd_player.c:935-987 | a concrete run in which a skip forward, made at the end of the last track, moves nowhere: the player ends, neither stopped nor failed, with the request still there |
| Pcm.SampleToS32 | components/sd_player/sd_player.c:303-314 | the shifts and the hand-made sign extension read a little-endian two's complement number |
| Pcm.SignedIsResidue | components/sd_player/sd_player.c:303-314 | the value is the one around zero among those that the bytes may stand for |
| Pcm.ShiftKeepsTop | components/sd_player/sd_player.c:319-331 | the arithmetic shift keeps exactly the two highest bytes, so the result is always a 16-bit value |
| Pcm.PcmToS16 | components/sd_player/sd_player.c:319-331 | converting in place equals converting out of place, for 3 and 4 bytes a sample, and touches nothing for fewer |
| Pcm.NarrowedKeepsTopBytes | components/sd_player/sd_player.c:325-330 | output sample i consists of the two highest bytes of input sample i |
| Pcm.OffsetIs | components/sd_player/sd_player.c:319-331 | samples lie one after the other |
| Pcm.ApplyVolume | components/sd_player/sd_player.c:338-352 | every sample is scaled and rounded down, unity and above change nothing, and nothing wraps |
| Pcm.ScaledIsProduct | components/sd_player/sd_player.c:349-351 | a scaled sample is the exact product with the volume in 1/32768ths, rounded down |
| Pcm.VolumeKeepsOrder | components/sd_player/sd_player.c:349-351 | scaling keeps the order of samples |
| Pcm.SpreadMono | components/sd_player/sd_player.c:911-916 | the backwards loop in one buffer doubles every sample, and leaves the rest of the buffer alone |
| Gbk.NormalForm | components/sd_card/filename_enc.c:72-107 | GBK to UTF-8 to GBK to UTF-8 equals GBK to UTF-8, for every string and every table |
| Gbk.RoundTrip | components/sd_card/filename_enc.c:72-189 | with an injective table, strings of ASCII and defined codes come back byte for byte |
| Gbk.GbkIsNoLonger | components/sd_card/filename_enc.c:129-189 | converting to GBK never makes a string longer |
| Gbk.CellsAreInOrder | components/sd_card/filename_enc.c:55-70 | rows are the lead bytes 0x81 to 0xFE in order, columns the trail bytes 0x40 to 0xFE in order without 0x7F |
| Gbk.EveryCodeHasCell | components/sd_card/filename_enc.c:55-70 | every such pair of bytes has a cell of the table |
| Gbk.OthersAreNoCodes | components/sd_card/filename_enc.c:55-70 | every other pair of bytes has none |
| Gbk.UnknownIsQuestion | components/sd_card/filename_enc.c:72-189 | what has no code becomes a question mark, in both directions |
| Gbk.Utf8InOrder | components/sd_card/filename_enc.c:36-53 | encodings are in the order of their code points, byte by byte |
| Gbk.DecodeWeights | components/sd_card/filename_enc.c:129-176 | what each byte of an encoding is worth, overlong ones included |
| GbkConverter.GbkToUtf8 | components/sd_card/filename_enc.c:72-107 | with any capacity the output is exactly the first cap-1 bytes of the unbounded conversion, terminated |
| GbkConverter.Utf8ToGbk | components/sd_card/filename_enc.c:129-189 | the same for the other direction |
| GbkConverter.ReverseLookup | components/sd_card/filename_enc.c:115-127 | the table scan finds the first code of a code point, or says that there is none |
| SdPath.SplitCommutes | components/sd_card/sd_card.c:118-129 | converting a path converts its parts one by one, exactly when no slash is written overlong |
| SdPath.SplitIsCut | components/sd_card/sd_card.c:80-97 | the parts of a path, joined with slashes, are the path, and none has a slash |
| SdPath.WellFormedPath | components/sd_card/sd_card.c:118-129 | for well-formed UTF-8 (section 4 of RFC 3629) the conversion keeps the parts, makes no ".." and no NUL, and is no longer |
| SdPath.EncodingIsSequence | components/sd_card/filename_enc.c:36-53 | well-formed are the encodings of all code points but surrogates (section 3 of RFC 3629) |
| SdPath.SequenceIsEncoding | components/sd_card/filename_enc.c:36-53 | and nothing else |
| SdPath.PathCheck | components/sd_card/sd_card.c:62-98 | the check accepts exactly the absolute paths of bounded length, without control characters, backslashes and ".." parts |
| SdPath.LongestPath | components/sd_card/sd_card.c:62-69 | an accepted path has at most 255 bytes |
| SdPath.AcceptedByte | components/sd_card/sd_card.c:74-81 | a path may have every byte from the space on but the backslash |
| SdPath.FullPath | components/sd_card/sd_card.c:100-135 | the result or the error for every path and every capacity; the fixed conversion buffer never truncates |
| SdPath.FullPathStaysBelowMountPoint | components/sd_card/sd_card.c:100-135 | the full path of an accepted well-formed path has the mount point's part, then the converted parts, and no ".." |
| SdPath.RootIsMountPoint | components/sd_card/sd_card.c:108-129 | the full path of the root is "/sdcard", that of any other path goes on after it |
| SdPath.FullPathHasDotDotIfDecodedHas | components/sd_card/sd_card.c:62-135 | for every accepted path and every table, the full path has a ".." part exactly if the decoded code points before the first NUL have one |
| SdPath.OverlongPathHasDotDot | components/sd_card/sd_card.c:62-135 | an accepted path, dots written in two bytes each, whose full path has a ".." part |
| SdPath.FullPathCharacters | components/sd_card/sd_card.c:79-135 | for every path and table, the full path has a control character exactly if the decoded path before the first NUL has it, and a backslash exactly if that has one or a character whose GBK code ends in that byte |
| SdPath.WellFormedPathCharacters | components/sd_card/sd_card.c:79-135 | an accepted, well-formed path gives no control character, and backslashes only as the second byte of a code |
| SdPath.BackslashFromTrail | components/sd_card/sd_card.c:79-135 | any character with such a code is, after a slash, an accepted well-formed path whose full path has a backslash byte |
| HybridFlow.FlowHasInputMix | components/dac_tas57xx/dac_tas57xx.c:336-381 | for every well-formed flow the recogniser says yes exactly if playing the flow on a zeroed device leaves a gain pair in both mixer slots |
| HybridFlow.LeftFlowHasMixer | components/dac_tas57xx/dac_tas57xx.c:307-381 | a concrete flow, with the gains of the left channel in both slots, has a mixer |
| HybridFlow.PutAllAt | components/dac_tas57xx/dac_tas57xx.c:203-255 | what a block of register writes leaves in every register of the device |
| FlowResidency.FlowIsResident | components/dac_tas57xx/dac_tas57xx.c:514-607 | after any calls, once clocks run and power is not off, every device with a flow holds it, and its mixer's gains are in both banks, so no swap changes them |
| FlowResidency.SelectedSourcePlays | components/dac_tas57xx/dac_tas57xx.c:1070-1223 | in the terms of the calls: with clocks started and the power last set to anything but off, both banks of both slots hold the gains of the source that was last selected |
| FlowResidency.SourceIsLastSelected | components/dac_tas57xx/dac_tas57xx.c:1204-1223 | the source is that of the last call that selects one |
| FlowResidency.PowerIsLastSet | components/dac_tas57xx/dac_tas57xx.c:1004-1061 | the power is that of the last call that sets it |
| FlowResidency.PlaysWhenOn | components/dac_tas57xx/dac_tas57xx.c:1004-1061 | after any calls a device runs unmuted exactly while the power is on |
| FlowResidency.PlaysWhenSwitchedOn | components/dac_tas57xx/dac_tas57xx.c:1004-1061 | a device runs unmuted exactly if the power was last set to on |
| FlowResidency.MixIsSelected | components/dac_tas57xx/dac_tas57xx.c:389-413 | write, swap, write leaves the selected gains in both banks of both slots |
| FlowResidency.WriteThenSwap | components/dac_tas57xx/dac_tas57xx.c:383-413 | a write is heard only after a swap and in its own slot alone |
| FlowResidency.SingleWriteIsUndone | components/dac_tas57xx/dac_tas57xx.c:383-388 | a value written to one bank only is undone by a later swap |
| FlowResidency.DownloadLeaves | components/dac_tas57xx/dac_tas57xx.c:514-607 | a download needs the clock and power, and ends running, unmuted, with the flow's own gains |
| FlowResidency.OnlyInStandby | components/dac_tas57xx/dac_tas57xx.c:514-607 | a module reset and the choice of the banks' mode work in standby alone |
| Tas57xx.Tas57xx.WriteMix | components/dac_tas57xx/dac_tas57xx.c:389-413 | the nested loops over slots and banks compute that, and nothing for a device without a mixer |
| Tas57xx.Tas57xx.Program | components/dac_tas57xx/dac_tas57xx.c:514-607 | programming a device, step by step, is the modelled step, and marks the flow resident exactly if one was downloaded |
| Tas57xx.Tas57xx.Init | components/dac_tas57xx/dac_tas57xx.c:737-741 | programming every device without clocks leaves the driver in the state that the laws over whole runs start from |
| Tas57xx.Tas57xx.SetPowerMode | components/dac_tas57xx/dac_tas57xx.c:1004-1061 | a change of power mode is the modelled step for all devices and flags |
| Tas57xx.Tas57xx.OnI2sStarted | components/dac_tas57xx/dac_tas57xx.c:1074-1096 | the start of the clocks is the modelled step |
| Tas57xx.Tas57xx.SetInputSource | components/dac_tas57xx/dac_tas57xx.c:1204-1223 | a change of the input channel is the modelled step |
| EqChain.PlayingChipsMatchSettings | components/dac_tas58xx/dac_tas58xx.c:864-962 | after any calls in any order, a playing chip has left its built-in coefficients and its slots are a fixed function of the settings |
| EqLaws.CrossoverSlots | components/dac_tas58xx/dac_tas58xx.c:1951-2060 | with a crossover, a playing subwoofer has two low-pass sections and the bands of its own way, a playing satellite two high-pass sections and the bands of the other, nothing for a band at 0, and nothing in the last slot |
| EqLaws.CurveSlots | components/dac_tas58xx/dac_tas58xx.c:1951-2060 | without one, a playing satellite has the user's curve and a playing subwoofer nothing |
| EqLaws.FirstSlotLeavesOthersFlat | components/dac_tas58xx/dac_tas58xx.c:1650-1666 | the first slot written off the built-in coefficients leaves the others flat |
| EqLaws.SlotIsWritten | components/dac_tas58xx/dac_tas58xx.c:1650-1666 | a later one changes its own slot alone |
| EqLaws.CornerIsLastSet | components/dac_tas58xx/dac_tas58xx.c:1131-1163 | the corner is that of the last call that sets it |
| EqLaws.CornerOf | components/dac_tas58xx/dac_tas58xx.c:1131-1136 | a corner from 40 to 400 Hz is kept, a higher one becomes 400, a lower one turns the crossover off |
| EqLaws.GainsAreLastSet | components/dac_tas58xx/dac_tas58xx.c:2078-2091 | the gains of a way are those of the last call that sets them, band by band, while the corner is not moved |
| EqLaws.ClampIsNearest | components/dac_tas58xx/dac_tas58xx.c:2085-2088 | a gain from -15 to 15 dB is kept, one out of range becomes the end of it |
| EqLaws.MovedCornerClearsGains | components/dac_tas58xx/dac_tas58xx.c:1138-1142 | moving the corner clears the gains of both ways until they are set again |
| EqLaws.BandIsLastAsked | components/dac_tas58xx/dac_tas58xx.c:2320-2426 | a band of the user's curve is what the last call for it asked for, whoever had the slots |
| EqLaws.IndexIsNearest | components/dac_tas58xx/dac_tas58xx.c:2326-2335 | an index stands for the whole number of decibels nearest to the gain, -15 at 0 to 15 at 30 |
| EqLaws.StateIsLastSet | components/dac_tas58xx/dac_tas58xx.c:864-962 | a chip plays, waits or sleeps as the last call for the power said |
| EqLaws.ClocksAreItsOwn | components/dac_tas58xx/dac_tas58xx.c:864-962 | what the clocks do to one chip they do not do to another |
| EqChain.CrossoverOffRestoresCurve | components/dac_tas58xx/dac_tas58xx.c:2001-2021 | turning the crossover off restores exactly the latest curve, with the changes made while the crossover owned the slots, and flattens the subwoofer |
| EqChain.CurveOfEqOps | components/dac_tas58xx/dac_tas58xx.c:2253-2363 | the saved curve is what the equaliser calls alone would have made it, whoever owned the slots meanwhile |
| EqChain.BandIsOk | components/dac_tas58xx/dac_tas58xx.c:2320-2360 | writing a single slot for a single band keeps a playing chip in agreement with the settings |
| EqChain.PlayingChipHasDefaults | components/dac_tas58xx/dac_tas58xx.c:1634-1700 | after any calls, the memory of a playing chip has the signal path's defaults exactly if no call lost them since its last wake from deep sleep |
| EqChain.EarlyCurveLosesDefaults | components/dac_tas58xx/dac_tas58xx.c:864-962 | a concrete run of two calls after which a chip plays without the defaults |
| EqChain.SilenceIsCoherent | components/dac_tas58xx/dac_tas58xx.c:143-205 | chips that do not play, as the initial register sequences leave them, agree with any settings |
| Tas58xx.Tas58xx.constructor | components/dac_tas58xx/dac_tas58xx.c:757-815 | the new driver has the crossover and bands stored before its start and a flat curve, and with no chip playing is in the state that the laws over whole runs start from |
| Tas58xx.Tas58xx.SetSubCrossoverHz | components/dac_tas58xx/dac_tas58xx.c:1131-1163 | moving the corner clamps it, clears the bands of both ways if it changed, and reprograms every chip |
| Tas58xx.Tas58xx.SubEqSetGains | components/dac_tas58xx/dac_tas58xx.c:2063-2091 | setting the bands of a way clamps them and reprograms every chip, or refuses a missing array |
| Tas58xx.Tas58xx.EqSetOneBand | components/dac_tas58xx/dac_tas58xx.c:2320-2360 | a band out of range is refused; otherwise the curve is saved, and one slot written where no crossover owns it |
| Tas58xx.Tas58xx.EqSetEveryBand | components/dac_tas58xx/dac_tas58xx.c:2362-2394 | a whole curve is saved, and programmed where no crossover owns the slots |
| Tas58xx.Tas58xx.EqReset | components/dac_tas58xx/dac_tas58xx.c:2396-2426 | the same for the flat curve |
| Tas58xx.Tas58xx.SetPowerMode | components/dac_tas58xx/dac_tas58xx.c:864-972 | a chip that starts to play is programmed from the settings, from every state |
| Tags.TrimIsKept | components/sd_player/tags.c:32-68 | trimming yields a text exactly if the rest of the input is blanks before it, and space and then NULs after it, all as long as they can be |
| Tags.TrimUndoesPadding | components/sd_player/tags.c:32-68 | a trimmed text comes back from behind a byte order mark and blanks, and before space and NULs |
| Tags.TrimsHi | components/sd_player/tags.c:32-68 | a text given byte by byte is trimmed to its letters |
| Tags.SpacesAre | components/sd_player/tags.c:46-58 | which bytes count as space, at the front and at the end |
| Tags.TrimsCompletely | components/sd_player/tags.c:32-68 | what is left needs no more trimming exactly if the text has no second byte order mark after blanks and no NUL before trailing space |
| Tags.NulBeforeSpaceStays | components/sd_player/tags.c:46-58 | a NUL before a trailing space is left at the end |
| Tags.Id3RoundTrip | components/sd_player/tags.c:79-142 | reading an ID3v2.3 or 2.4 tag without extended header (section 6.2 of the ID3v2.4.0 structure document) undoes writing it, whatever follows |
| Tags.Id3CutRoundTrip | components/sd_player/tags.c:79-142 | of a tag that the window cuts off anywhere, the frames that are whole come back, and no others |
| Tags.ExtendedIsSkipped | components/sd_player/tags.c:88-96 | the extended header is bit 6 of the flags, and with it nothing is read |
| Tags.SyncsafeWeights | components/sd_player/tags.c:70-75 | what each byte of a syncsafe number is worth, seven bits each, the first most |
| Tags.SyncsafeIgnoresTopBits | components/sd_player/tags.c:70-75 | its eighth bits count nothing |
| Tags.BigEndianIsReversed | components/sd_player/tags.c:108-114 | big-endian numbers are little-endian ones from the other end |
| Tags.SizeByVersion | components/sd_player/tags.c:108-114 | frame sizes have seven bits a byte from version 4 on, and eight before |
| Tags.FrameIsEntry | components/sd_player/tags.c:124-137 | which frame names are which field, and that only UTF-8 text is taken |
| Tags.EmptyFrameIsIgnored | components/sd_player/tags.c:124-127 | a frame without text is not taken |
| Tags.FlacRoundTrip | components/sd_player/tags.c:147-232 | reading the comments of a FLAC file (sections 8.1 and 8.6 of RFC 9639) undoes writing them, wherever the block is in the chain |
| Tags.FlacCutRoundTrip | components/sd_player/tags.c:147-232 | of a file that the window cuts off, the comments come back exactly if their block is whole in it |
| Tags.CutCommentsComeBack | components/sd_player/tags.c:170-203 | of a comment block that ends early, the comments that are whole come back, and none if the vendor string or the count is not whole |
| Tags.TitlesAreRead | components/sd_player/tags.c:79-232 | two files given byte by byte, an ID3v2.4 tag and a FLAC comment block, have the title they have |
| Tags.LittleEndianWeights | components/sd_player/tags.c:174-195 | what each byte of a little-endian number is worth, the first least |
| Tags.KeyIsField | components/sd_player/tags.c:205-221 | which keys are which field, letter by letter in either case |
| Tags.CommentOfKey | components/sd_player/tags.c:205-221 | a comment is split at its first equals sign and its key compared without regard to case |
| Tags.OverwritingKeepsLast | components/sd_player/tags.c:124-137 | overwriting a field with every match leaves the trimmed last one |
| Tags.LastOfIsLast | components/sd_player/tags.c:124-137 | what counts for a field is the entry after which no other of that field comes |
| Tags.LastOfNone | components/sd_player/tags.c:124-137 | a field has no text exactly if there is no entry for it |
| TagReader.Id3IsShown | components/sd_player/tags.c:79-275 | written and read: for a tag of any size, each field shows its last frame among those that are whole in the first 16 KB, whatever follows |
| TagReader.FlacIsShown | components/sd_player/tags.c:147-275 | the comments of a FLAC file are shown exactly if the block they are in is whole in the first 16 KB, whatever blocks follow |
| TagReader.ShownText | components/sd_player/tags.c:32-68 | what a buffer shows, as C reads it |
| TagReader.CopyTrim | components/sd_player/tags.c:32-68 | the buffer receives the trimmed text, as much as fits, terminated |
| TagReader.Fields.ParseId3 | components/sd_player/tags.c:79-142 | on arbitrary bytes the frame loop ends, reads only inside the window, and stores exactly the frames' entries |
| TagReader.Fields.ParseVorbis | components/sd_player/tags.c:147-232 | the same for the chain of blocks and the comments |
| TagReader.Fields.ReadTags | components/sd_player/tags.c:234-275 | the three buffers show the last entry of each field in the first 16 KB, or are empty |
| DirtyRows.SendingDirtyRowsIsSendingAll | components/display/display.c:293-339 | after any frames and any errors, an error-free frame leaves on the panel exactly what sending every row would |
| DirtyRows.FrameShowsBuffer | components/display/display.c:332-338 | a valid shadow is what the panel shows; a frame with an error invalidates it, so that the next frame is sent whole |
| DirtyRows.OnlyMovedRowsAreSent | components/display/display.c:293-339 | rows that did not move since a good frame are not sent, every other row is |
| Display.Display.SendRuns | components/display/display.c:309-326 | the run-finding loops send exactly the rows that differ from the shadow |
| Display.Display.SendDirtyRows | components/display/display.c:293-339 | one frame in place is the modelled frame, with and without errors, and for displays too large for the shadow |

## Left out

- Resampler.Resampler.Process: does not model the flush request (a negative input count), its postfill and the shift it
  makes near the end of the buffer, which can leave the filter window.
- Resampler.ResampleInit: does not model allocation failure. The raw taps must not sum to zero.
- FilterBank.InitFilter: assumes that the raw taps do not sum to zero; rounding is a function with a bounded error.
- Resampler: floating-point rounding of positions, extrapolation at the start, the interleaved variant and the worker
  threads. Output frames are returned as a sequence instead of being stored through pointers.
- WindowedSinc.FirstFilterStartsWithImpulse: sine, cosine and the window values are parameters.
- Stream.ChunkingDoesNotMatter: the ratio is the same for all calls.
- SharedRing.Fifo: weak memory ordering; every access is sequentially consistent.
- Player.TrackIsolation: one lifetime of the player task; the list does not change during it. The decoder, the audio
  output, the track information and a new start of the player after a stop are left out.
- Player.DeliveredIfRingEmpty: a read of nothing is the end of the file or an error, as the C library promises.
- Pcm.SpreadMono: growing the buffer, and the truncation when it cannot grow, are left to the caller.
- Gbk.RoundTrip: the contents of the code table are left open; injectivity is a hypothesis.
- SdPath.FullPath: mounting, directories and files.
- HybridFlow.FlowHasInputMix: the flow selects pages by writes of their own, keeps its blocks within a page, does not
  reset the modules and is terminated. The pin and clock registers that the download rewrites are not part of the model.
- FlowResidency.FlowIsResident: writes to the devices succeed; standby keeps the memory, powerdown wipes it. Volume,
  the clock source and the fault monitor are left out.
- Tas57xx.Tas57xx.Program: the pin and clock registers that are written again after a download.
- Tas58xx.Tas58xx.SetPowerMode: a chip that does not reach the play state because its clocks are missing.
- EqChain.PlayingChipsMatchSettings: both chips are of the model with the coefficient books, writes succeed, and clocks
  are present when a chip is told to play. The bi-amp role, the bypass flag, the input mixer, the volume and the numeric
  filter designs are left out.
- Tas58xx.Tas58xx.SetSubCrossoverHz: calls before the driver's start, which only store what the constructor takes.
- EqChain.PlayingChipHasDefaults: registers keep their values when a chip leaves deep sleep for standby.
- Tags.Id3RoundTrip: frame flags, and the text encodings that the source skips.
- TagReader.Fields.ReadTags: titles from file names.
- Display.Display.SendDirtyRows: rows are sequences of bytes; the error counter is unbounded, so that a multiple of
  2^32 errors in one frame is not confused with none.
- Drivers, networking, Bluetooth, buttons, LEDs, cover art, the web server and the configuration store.
