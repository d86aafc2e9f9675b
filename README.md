# Polyphonic note detector: the discrete core

This project models the discrete routines of a polyphonic note detector based on the
Harmonic Product Spectrum (HPS) and proves properties about them. The detector cuts an
audio buffer into chunks of `fft_len` samples and takes each chunk's magnitude spectrum.
It clears the DC bins and multiplies the spectrum by its decimated copies, which gives
the HPS. It clips the HPS, picks peaks, and names each peak frequency after the nearest
note in a 60-entry equal-tempered table (C_2 to B_6).

The model covers the index-level and control-flow parts of that pipeline. Spectral
magnitudes and frequencies are Dafny `real`s. Note pitches are whole semitone offsets
from A4 (440 Hz).

| module | file | models |
|---|---|---|
| `Wrappers` | `wrappers.dfy` | `Option`, `Result`: most Python exceptions become `None` or `Failure`; `remove_dc_offset` and the HPS product and clip signal theirs with a `false` flag |
| `Chunking` | `chunking.dfy` | `divide_buffer_into_non_overlapping_chunks`, with `np.split` as `Split` |
| `Spectrum` | `spectrum.dfy` | `remove_dc_offset`, the product and clip of `PitchSpectralHps`, `note_threshold_scaled_by_RMS` |
| `NoteTable` | `note_table.dfy` | `freq_for_note`, `get_all_notes_freq` |
| `NoteMapper` | `note_mapper.dfy` | `find_nearest_note` |
| `Driver` | `driver.dfy` | the chunk loop of `main` that fills `note_names` and `times` |

The operations that change state in the source are imperative here:
- the split-point loop;
- the in-place writes of `remove_dc_offset`;
- the `afHps *=` loop;
- the nested table-building loop;
- the scan with early `break`;
- the accumulation loop of `main`.

`RemoveDcOffset` and `CopyPrefix` state their new array contents directly. Every other
method is proved against a specification function:
- `DivideIntoChunks` against `IsChunking`, which `Split` is proved to meet;
- `MultiplyByDecimated` against `Times` and `Decimated`;
- `HarmonicProductSpectrum` against `HpsOf`;
- `MaxValue` against `MaxOf`, and `ClipArray` against `Clip`;
- `HpsProductAndClip` against `ClippedHps`;
- `GetAllNotesFreq` against `Table`;
- `FindNearestNote` against `NearestNote`;
- `DetectNotes` against `NamesUpTo` and `TimesUpTo`.

The properties are proved as lemmas about those functions.

The source's constants are Dafny constants of the same value:
- `NoteTable.OrderedNotes` is `ordered_notes` (lines 148-159);
- `NoteTable.BaseNotes` is `base_notes_freq` (lines 120-124), as semitone offsets;
- `NoteTable.ScaleNotesIndex` is `scale_notes_index` (line 140);
- `NoteMapper.NotFound` is the `note_not_found` answer (line 171);
- `NoteMapper.Sentinel` is the initial `last_dist` (line 172);
- `Spectrum.Thresh` is `THRESH` (line 33);
- `Spectrum.Order` is `iOrder` (line 201).

Points of the code's behaviour that are easy to mistake:
- **Trailing remainder.** The code cuts at `i * max_len` for `i` in `1 .. chunks - 1`,
  so the last piece absorbs the remainder rather than being dropped. A buffer shorter
  than `max_len` comes back whole, as one piece, rather than being an error. Only
  `max_len == 0` raises (`ZeroDivisionError`). A negative `max_len` also gives the whole
  buffer as one piece.
- **`note_not_found`.** The scan returns `note_not_found` for an empty table and when no
  entry is closer than the sentinel 1,000,000. For an ascending table, such as the note
  table, it also returns it when the very first entry is farther than the sentinel (the
  early exit then fires at once), even if a later entry matches exactly.
  `NoteMapper.EarlyExitMissesExactEntry` exhibits that case.
- **Failures of the chunk loop.** Each iteration first runs the spectral stage of the
  chunk, which can raise; `Driver.DetectNotes` receives that stage's outcome per chunk
  as an `Option` and stops at the first `None`. The stage raises for an empty chunk
  (`rfft`, line 100), for one of 1 to 3 samples (`IndexError`, lines 110-111), for 4 to
  7 samples (`max` of an empty `afHps`, line 218), at sample rate 0 (`f_min / f_s`,
  line 207), and for a rate that puts `k_min` outside `afHps` (lines 222-223). The time
  `float(fft_len) * idx / sample_rate_file` (line 323) would raise at rate 0 too, but in
  the source the stage has already raised at line 207 by then. `Driver.DetectNotes` keeps
  the check as its own error `ZeroDivision`; that error can arise only because the model
  takes the stage's outcome as an input, which may claim success at rate 0. Nothing in the code
  rejects a negative rate, which gives negative, decreasing times.

## Model

| member | source | states |
|---|---|---|
| Chunking.TruncDiv | Polyphonic_note_detector_using_Harmonic_Product_Spectrum-main/python/video_note_detector.py:88 | `int(a / b)` rounds toward zero: its sign follows `b`, and `|q|·|b| <= a < (|q|+1)·|b|` |
| Chunking.Split | Polyphonic_note_detector_using_Harmonic_Product_Spectrum-main/python/video_note_detector.py:93 | `np.split` at m valid points yields m + 1 pieces |
| Chunking.Multiples | Polyphonic_note_detector_using_Harmonic_Product_Spectrum-main/python/video_note_detector.py:90-92 | the loop appends `count` split points, `i * max_len` for `i` in `1 .. count` |
| Chunking.IsChunking | Polyphonic_note_detector_using_Harmonic_Product_Spectrum-main/python/video_note_detector.py:86-94 | defines the promise of a chunking: concatenation is the buffer, `max(1, len / max_len)` pieces, all but the last of length `max_len`, and the whole buffer for a short buffer or a negative `max_len` |
| Chunking.SplitPiece | Polyphonic_note_detector_using_Harmonic_Product_Spectrum-main/python/video_note_detector.py:93 | piece k is exactly the slice between boundary k and boundary k + 1 |
| Chunking.SplitFlatten | Polyphonic_note_detector_using_Harmonic_Product_Spectrum-main/python/video_note_detector.py:93 | the pieces concatenate back to the buffer; no sample is lost or repeated |
| Chunking.MultiplesAreValidCuts | Polyphonic_note_detector_using_Harmonic_Product_Spectrum-main/python/video_note_detector.py:90-91 | the points `i * max_len` are non-decreasing and inside the buffer |
| Chunking.UniformPiece | Polyphonic_note_detector_using_Harmonic_Product_Spectrum-main/python/video_note_detector.py:90-93 | cutting at the first `count - 1` multiples gives pieces of `max_len`, except the last, which has `len - (count - 1)·max_len` |
| Chunking.LastPieceBounds | Polyphonic_note_detector_using_Harmonic_Product_Spectrum-main/python/video_note_detector.py:88-91 | for `0 < max_len <= len`, `chunks = len / max_len >= 1` and the last piece is at least `max_len` and below `2·max_len` |
| Chunking.ChunkingByLengths | Polyphonic_note_detector_using_Harmonic_Product_Spectrum-main/python/video_note_detector.py:86-94 | pieces with the right count and lengths that concatenate to the buffer meet every chunking promise, including "one whole piece" for a short buffer |
| Chunking.PositiveSplit | Polyphonic_note_detector_using_Harmonic_Product_Spectrum-main/python/video_note_detector.py:88-93 | for a positive `max_len`, the split at the loop's points is a chunking: `max(1, len / max_len)` pieces, concatenation is the buffer, all but the last of length `max_len` |
| Chunking.NegativeSplit | Polyphonic_note_detector_using_Harmonic_Product_Spectrum-main/python/video_note_detector.py:88-93 | for a negative `max_len` there are no split points and the result is the whole buffer as one piece |
| Chunking.DivideIntoChunks | Polyphonic_note_detector_using_Harmonic_Product_Spectrum-main/python/video_note_detector.py:86-94 | fails exactly when `max_len == 0`; otherwise the pieces concatenate to the buffer, number `max(1, len / max_len)`, and have length `max_len` except the last (`len - (n-1)·max_len`, in `[max_len, 2·max_len)` when `max_len <= len`), and a short buffer or a negative `max_len` gives `[buffer]` |
| Spectrum.RemoveDcOffset | Polyphonic_note_detector_using_Harmonic_Product_Spectrum-main/python/video_note_detector.py:107-112 | succeeds iff the array has at least 3 bins; bins 0, 1, 2 (those that exist) become 0.0 and every other bin keeps its value |
| Spectrum.HpsLength | Polyphonic_note_detector_using_Harmonic_Product_Spectrum-main/python/video_note_detector.py:205 | `iLen = int((N - 1) / 4)`: `4·iLen <= N - 1 < 4·iLen + 4`, and 0 for an empty spectrum |
| Spectrum.DecimatedCoversHps | Polyphonic_note_detector_using_Harmonic_Product_Spectrum-main/python/video_note_detector.py:210-212 | every read `X[step·k]` for step 1..4 and `k < iLen` is in bounds |
| Spectrum.Decimated | Polyphonic_note_detector_using_Harmonic_Product_Spectrum-main/python/video_note_detector.py:211-212 | `X[::step][0:iLen]` has `iLen` bins; `Spectrum.PartialHpsComplete` states their values |
| Spectrum.Times | Polyphonic_note_detector_using_Harmonic_Product_Spectrum-main/python/video_note_detector.py:212 | numpy's element-wise `*` inside `afHps *=` keeps the length of the spectra |
| Spectrum.PartialHps | Polyphonic_note_detector_using_Harmonic_Product_Spectrum-main/python/video_note_detector.py:210-212 | after the rounds for steps 2..h the product has `iLen` bins |
| Spectrum.HpsOf | Polyphonic_note_detector_using_Harmonic_Product_Spectrum-main/python/video_note_detector.py:206-212 | the harmonic product has `iLen` bins |
| Spectrum.PartialHpsComplete | Polyphonic_note_detector_using_Harmonic_Product_Spectrum-main/python/video_note_detector.py:206-212 | after the three rounds, bin k is `X[k]·X[2k]·X[3k]·X[4k]` |
| Spectrum.CopyPrefix | Polyphonic_note_detector_using_Harmonic_Product_Spectrum-main/python/video_note_detector.py:206 | `X[np.arange(0, n)]` is a fresh array holding the first n bins, and `X` is not changed |
| Spectrum.MultiplyByDecimated | Polyphonic_note_detector_using_Harmonic_Product_Spectrum-main/python/video_note_detector.py:211-212 | `afHps *= X[::step][0:iLen]` multiplies bin k by `X[step·k]` and changes only `afHps` |
| Spectrum.HarmonicProductSpectrum | Polyphonic_note_detector_using_Harmonic_Product_Spectrum-main/python/video_note_detector.py:205-212 | a fresh array equal to the harmonic product `X[k]·X[2k]·X[3k]·X[4k]` for every `k < iLen`, with `X` not modified |
| Spectrum.MaxOf | Polyphonic_note_detector_using_Harmonic_Product_Spectrum-main/python/video_note_detector.py:218 | `max(afHps)` bounds every bin and is attained by one |
| Spectrum.MaxValue | Polyphonic_note_detector_using_Harmonic_Product_Spectrum-main/python/video_note_detector.py:218 | the running-maximum loop returns an upper bound of the array that one bin attains |
| Spectrum.ClipArray | Polyphonic_note_detector_using_Harmonic_Product_Spectrum-main/python/video_note_detector.py:218 | `np.clip` returns a fresh array equal to `min(max(a[k], lo), hi)` bin by bin |
| Spectrum.Clip | Polyphonic_note_detector_using_Harmonic_Product_Spectrum-main/python/video_note_detector.py:218 | `np.clip` keeps the number of bins |
| Spectrum.ClippedHps | Polyphonic_note_detector_using_Harmonic_Product_Spectrum-main/python/video_note_detector.py:218 | the clipped harmonic product has `iLen` bins |
| Spectrum.ClipBounds | Polyphonic_note_detector_using_Harmonic_Product_Spectrum-main/python/video_note_detector.py:218 | with `lo <= hi` a clipped bin lies in `[lo, hi]`, is unchanged when already inside, and is `hi` when at or above it |
| Spectrum.ClipMonotone | Polyphonic_note_detector_using_Harmonic_Product_Spectrum-main/python/video_note_detector.py:218 | clipping never reorders two bins, so the strongest bin stays a strongest bin |
| Spectrum.HpsNonNegative | Polyphonic_note_detector_using_Harmonic_Product_Spectrum-main/python/video_note_detector.py:206-212 | a non-negative magnitude spectrum has a non-negative harmonic product |
| Spectrum.HpsClipRange | Polyphonic_note_detector_using_Harmonic_Product_Spectrum-main/python/video_note_detector.py:218 | for a non-negative spectrum every clipped bin lies in `[0, 0.5·max(afHps)]`, and the bins at the maximum land exactly on `0.5·max` |
| Spectrum.HpsProductAndClip | Polyphonic_note_detector_using_Harmonic_Product_Spectrum-main/python/video_note_detector.py:201-218 | the result has `iLen` bins; it fails iff `iLen == 0` (`max` of an empty array); otherwise it is the clip of the harmonic product to `[0, 0.5·max]` |
| Spectrum.NoteThresholdScaledByRms | Polyphonic_note_detector_using_Harmonic_Product_Spectrum-main/python/video_note_detector.py:269-271 | the threshold is non-negative for a non-negative RMS and is zero iff the RMS is zero |
| Spectrum.ThresholdLinear | Polyphonic_note_detector_using_Harmonic_Product_Spectrum-main/python/video_note_detector.py:269-271 | scaling the RMS by a scales the threshold by a, and the threshold of a sum of two RMS values is the sum of their thresholds |
| NoteTable.FreqForNote | Polyphonic_note_detector_using_Harmonic_Product_Spectrum-main/python/video_note_detector.py:114-144 | defined iff the base note is a key of `base_notes_freq` and `-14 <= note_index < 14`; the offset is base + index - 9, or base + index + 5 for a negative index |
| NoteTable.OctaveString | Polyphonic_note_detector_using_Harmonic_Product_Spectrum-main/python/video_note_detector.py:162 | `str(octave_index)` of a one-digit octave is one decimal digit |
| NoteTable.BaseNoteOfOctave | Polyphonic_note_detector_using_Harmonic_Product_Spectrum-main/python/video_note_detector.py:118-124 | `"A" + str(o)` for o in 2..6 is a key at `12·(o - 4)` semitones (A4/4 .. A4·4) |
| NoteTable.BaseNoteName | Polyphonic_note_detector_using_Harmonic_Product_Spectrum-main/python/video_note_detector.py:161 | `"A" + str(o)` is two characters starting with `A` |
| NoteTable.NoteName | Polyphonic_note_detector_using_Harmonic_Product_Spectrum-main/python/video_note_detector.py:165 | `ordered_notes[i] + "_" + str(o)` is two characters longer than the note name, with `_` second to last |
| NoteTable.FreqForNoteInOctave | Polyphonic_note_detector_using_Harmonic_Product_Spectrum-main/python/video_note_detector.py:140-143 | note i of octave o is `12·(o - 4) + i - 9` semitones from A4 |
| NoteTable.GetAllNotesFreq | Polyphonic_note_detector_using_Harmonic_Product_Spectrum-main/python/video_note_detector.py:146-168 | the nested loops build exactly the 60-entry table `Table()` |
| NoteTable.Entry | Polyphonic_note_detector_using_Harmonic_Product_Spectrum-main/python/video_note_detector.py:160-167 | defines entry k of the table: note `k % 12` of octave `2 + k / 12`, offset `k - 33` from A4 |
| NoteTable.Table | Polyphonic_note_detector_using_Harmonic_Product_Spectrum-main/python/video_note_detector.py:146-168 | the table `get_all_notes_freq` returns has 60 entries |
| NoteTable.EntryPosition | Polyphonic_note_detector_using_Harmonic_Product_Spectrum-main/python/video_note_detector.py:160-167 | the entry appended for octave o, note i is at position `12·(o - 2) + i`, with name `ordered_notes[i] + "_" + str(o)` and offset `12·(o - 4) + i - 9` |
| NoteTable.TableLayout | Polyphonic_note_detector_using_Harmonic_Product_Spectrum-main/python/video_note_detector.py:160-167 | entry `12·(o - 2) + i` is named after note i of octave o, and its offset is what `freq_for_note` computes for it |
| NoteTable.TableAnchors | Polyphonic_note_detector_using_Harmonic_Product_Spectrum-main/python/video_note_detector.py:160-167 | the table starts with C_2 at -33, ends with B_6 at 26, and has A_2, A_4, A_5 at -24, 0, 12 |
| NoteTable.TableAscending | Polyphonic_note_detector_using_Harmonic_Product_Spectrum-main/python/video_note_detector.py:160-167 | offsets are consecutive: entries a < b differ by `b - a > 0` semitones |
| NoteTable.OrderedNotesDistinct | Polyphonic_note_detector_using_Harmonic_Product_Spectrum-main/python/video_note_detector.py:148-159 | the twelve note names are pairwise different |
| NoteTable.NoteNamesDiffer | Polyphonic_note_detector_using_Harmonic_Product_Spectrum-main/python/video_note_detector.py:165 | different (note, octave) pairs give different `note_name` strings |
| NoteTable.TableNamesDistinct | Polyphonic_note_detector_using_Harmonic_Product_Spectrum-main/python/video_note_detector.py:160-167 | no two table entries share a name |
| NoteTable.FreqTable | Polyphonic_note_detector_using_Harmonic_Product_Spectrum-main/python/video_note_detector.py:163-167 | the `(note_name, note_freq)` table has 60 entries |
| NoteTable.FreqTableAscending | Polyphonic_note_detector_using_Harmonic_Product_Spectrum-main/python/video_note_detector.py:143 | with a pitch map that increases with the offset, table frequencies strictly increase |
| NoteTable.FreqTableA4 | Polyphonic_note_detector_using_Harmonic_Product_Spectrum-main/python/video_note_detector.py:116-122 | entry 33 is `A_4` at 440 Hz |
| NoteTable.ExactPitchFindsNote | Polyphonic_note_detector_using_Harmonic_Product_Spectrum-main/python/video_note_detector.py:170-180 | looking up an entry's exact frequency returns that entry's name, for an increasing pitch map spanning less than the sentinel |
| NoteMapper.Dist | Polyphonic_note_detector_using_Harmonic_Product_Spectrum-main/python/video_note_detector.py:174 | `curr_dist = abs(note_freq - freq)` is non-negative and is the difference taken in one order or the other |
| NoteMapper.RisesAt | Polyphonic_note_detector_using_Harmonic_Product_Spectrum-main/python/video_note_detector.py:172-178 | defines the `elif curr_dist > last_dist: break` test at entry k, with the sentinel 1,000,000 as the distance before entry 0 |
| NoteMapper.FirstRise | Polyphonic_note_detector_using_Harmonic_Product_Spectrum-main/python/video_note_detector.py:178-179 | the stop index of the scan: no rise before it, and a rise at it unless it is the table's end |
| NoteMapper.FirstNearest | Polyphonic_note_detector_using_Harmonic_Product_Spectrum-main/python/video_note_detector.py:175-177 | an index of least distance among the first `hi` entries; every earlier entry is strictly farther (ties go to the lower entry) |
| NoteMapper.FindNearestNote | Polyphonic_note_detector_using_Harmonic_Product_Spectrum-main/python/video_note_detector.py:170-180 | the scan with running minimum, sentinel and early `break` returns `NearestNote`: the first nearest name among the entries before the first rise, or `note_not_found` |
| NoteMapper.NearestNote | Polyphonic_note_detector_using_Harmonic_Product_Spectrum-main/python/video_note_detector.py:170-180 | the answer is `note_not_found` or the name of an entry closer than the sentinel |
| NoteMapper.NotFoundWhenNothingClose | Polyphonic_note_detector_using_Harmonic_Product_Spectrum-main/python/video_note_detector.py:171-180 | an empty table, or every distance at least 1,000,000, gives `note_not_found` |
| NoteMapper.NotFoundWhenFirstBeyondSentinel | Polyphonic_note_detector_using_Harmonic_Product_Spectrum-main/python/video_note_detector.py:172-179 | a first entry farther than 1,000,000 gives `note_not_found`, whatever follows |
| NoteMapper.NoRiseMeansNonIncreasing | Polyphonic_note_detector_using_Harmonic_Product_Spectrum-main/python/video_note_detector.py:174-179 | before the first rise the distances never grow and stay within the sentinel |
| NoteMapper.RiseIsFinal | Polyphonic_note_detector_using_Harmonic_Product_Spectrum-main/python/video_note_detector.py:178-179 | on an ascending table, every entry from the first rise on is farther than the entry before the rise |
| NoteMapper.FirstNearestUnique | Polyphonic_note_detector_using_Harmonic_Product_Spectrum-main/python/video_note_detector.py:175-177 | the first index of least distance is unique, whatever prefix is searched |
| NoteMapper.AscendingFindsNearest | Polyphonic_note_detector_using_Harmonic_Product_Spectrum-main/python/video_note_detector.py:173-179 | on an ascending table with the first entry within the sentinel and some entry closer than it, the early exit is sound: the scan returns the name of the first nearest entry of the whole table |
| NoteMapper.AscendingExact | Polyphonic_note_detector_using_Harmonic_Product_Spectrum-main/python/video_note_detector.py:173-179 | on an ascending table, an entry's exact frequency (within the sentinel of the first) maps to that entry's name |
| NoteMapper.EarlyExitMissesExactEntry | Polyphonic_note_detector_using_Harmonic_Product_Spectrum-main/python/video_note_detector.py:172-179 | an ascending table whose first entry is beyond the sentinel gives `note_not_found` even for an exact frequency |
| Driver.NamesOf | Polyphonic_note_detector_using_Harmonic_Product_Spectrum-main/python/video_note_detector.py:325-327 | one name per frequency of a chunk |
| Driver.NamesUpTo | Polyphonic_note_detector_using_Harmonic_Product_Spectrum-main/python/video_note_detector.py:309-327 | `note_names` after n chunks has one entry per reported frequency |
| Driver.AppendChunk | Polyphonic_note_detector_using_Harmonic_Product_Spectrum-main/python/video_note_detector.py:325-329 | the inner `for freq in all_freqs` loop appends exactly `NamesOf(table, all_freqs)` to `note_names` and one copy of the chunk time per frequency to `times` |
| Driver.TimesUpTo | Polyphonic_note_detector_using_Harmonic_Product_Spectrum-main/python/video_note_detector.py:309-329 | `times` after n chunks has one entry per reported frequency, the same count as `note_names` |
| Driver.DetectNotes | Polyphonic_note_detector_using_Harmonic_Product_Spectrum-main/python/video_note_detector.py:293-329 | succeeds iff every chunk's stage completes and the rate is non-zero when there is a chunk; a failure names the first chunk whose stage raised, or is the division by a zero rate after chunk 0's stage; on success `note_names` and `times` are `NamesUpTo` and `TimesUpTo` over all chunks, built from `get_all_notes_freq()` |
| Driver.NameAt | Polyphonic_note_detector_using_Harmonic_Product_Spectrum-main/python/video_note_detector.py:325-327 | frequency j of chunk idx lands at position `PeakCount(idx) + j` of `note_names` with its nearest note's name |
| Driver.TimeAt | Polyphonic_note_detector_using_Harmonic_Product_Spectrum-main/python/video_note_detector.py:323-329 | the same position of `times` holds `fft_len·idx / sample_rate` |
| Driver.ChunkTimeMonotone | Polyphonic_note_detector_using_Harmonic_Product_Spectrum-main/python/video_note_detector.py:323 | for a positive rate and `fft_len >= 0`, chunk start times are non-negative and grow with the index |
| Driver.ChunkTime | Polyphonic_note_detector_using_Harmonic_Product_Spectrum-main/python/video_note_detector.py:323 | chunk 0 starts at 0, and a later chunk starts at a positive time for positive `fft_len` and rate |
| Driver.TimesNonDecreasing | Polyphonic_note_detector_using_Harmonic_Product_Spectrum-main/python/video_note_detector.py:309-329 | `times` is non-decreasing, and no entry exceeds the last chunk's time |
| Driver.SilentChunksAddNothing | Polyphonic_note_detector_using_Harmonic_Product_Spectrum-main/python/video_note_detector.py:325-329 | chunks that report no frequency add no name and no time |
| Driver.ExactFrequencyIsNamed | Polyphonic_note_detector_using_Harmonic_Product_Spectrum-main/python/video_note_detector.py:293-329 | a reported frequency equal to a table entry's exact pitch is named after that entry, at its chunk's time |

## Left out

- `getFFT` (Hamming window, `np.fft.rfft`, `np.abs`, `rfftfreq`): floating-point numerics in a foreign library. The spectrum is an input array of reals, and each chunk's peak frequencies are an input to `Driver.DetectNotes`. `getFFT` also reads the global `sample_rate` rather than its `rate` argument, which is not modelled.
- `scipy.signal.find_peaks` and its two height/distance regimes, the `argwhere`/`where` threshold selections, and the bin-to-Hz conversion `(index + k_min) / (N - 1) · f_s / 2`: a foreign library and float numerics. The driver takes the frequencies per chunk as given. The RMS-scaled threshold is only read by `all_freq` (line 222) and `freq_indexes_out` (line 233), neither of which reaches the returned frequencies, so it affects no output; `Spectrum.NoteThresholdScaledByRms` models it on its own.
- The `k_min` rounding (`round(f_min / f_s · 2 · (N - 1))`) and the RMS `sqrt(mean(chunk²))`: float numerics. The threshold is modelled as a function of a given RMS.
- `math.pow(TWELVE_ROOT_OF_2, ·)` in `freq_for_note`: replaced by integer semitone offsets. Hz values come from a parameter `pitch: int -> real`. The lemmas that need it carry three assumptions about `pitch`: it increases with the offset (`NoteTable.IncreasingPitch`, used by `NoteTable.FreqTableAscending`, `NoteTable.ExactPitchFindsNote` and `Driver.ExactFrequencyIsNamed`); `pitch(0) == 440.0` (`NoteTable.FreqTableA4`); and `pitch(26) - pitch(-33) <= 1,000,000`, the table spanning less than the sentinel (`NoteTable.ExactPitchFindsNote`, `Driver.ExactFrequencyIsNamed`). The real map, 440·2^(s/12) from 65.41 Hz at C_2 to 1975.5 Hz at B_6, meets all three.
- The unused `scale_notes` dictionary: it has no effect.
- `read_wav_file`, `read_video_file`, frame extraction, plotting, printing, `to_str_f`/`to_str_f4`, and the CSV export and frame broadcasting after the loop: I/O. The export code is also broken (`np.zeros_like` of a tuple).
- The unused `normalize`: never called.
- `notes_per_chunk`: written but never read.
- The return value of `remove_dc_offset`, which is the same array object it modified: aliasing, so not modelled. `Spectrum.RemoveDcOffset` returns a success flag instead.
- Float rounding. `Chunking.TruncDiv` is exact integer truncation: the same as Python's `int(len / max_len)` whenever `len` is below 2^53, since the double quotient then never rounds across an integer. Times and thresholds are exact reals.
- `Spectrum.HpsProductAndClip`: the clip range `[0, 0.5·max]` is proved for a non-negative spectrum (what `np.abs` yields), in `Spectrum.HpsClipRange`. For a spectrum with negative entries and a negative maximum, numpy's clip with `lo > hi` is not claimed to land in the range.
- `NoteMapper.AscendingFindsNearest`: soundness of the early exit is proved only when the first distance is within the sentinel. `NoteMapper.EarlyExitMissesExactEntry` shows the other case.
- The `main` loop's numpy views: chunks are `seq` slices, not views sharing storage with the input buffer.
- The link between a chunk and whether its spectral stage raises: the `rfft` of an empty chunk (line 100), the `IndexError` of `remove_dc_offset` on fewer than 3 bins, from 1 to 3 samples (lines 110-111), `f_min / f_s` at rate 0 (line 207), `max` of an empty `afHps` (line 218), and `k_min` outside `afHps` (lines 222-223). `Driver.DetectNotes` takes each chunk's outcome as an `Option`, because the stage's numerics are not modelled. The failures at lines 110-111 and 218 are modelled on their own by `Spectrum.RemoveDcOffset` and `Spectrum.HpsProductAndClip`.
