/**
 * The accumulation loop of `main`: for each chunk, in order, every frequency the
 * spectral stage reported is looked up in the note table, and its name and the
 * chunk's start time are appended side by side to `note_names` and `times`.
 * The spectral stage itself (`getFFT`, `remove_dc_offset`, RMS, `PitchSpectralHps`)
 * is abstract: for chunk `idx` it either raises (`None`) or reports the list of
 * peak frequencies (the `freq[0]` of each pair).
 */
module Driver {
  import opened Wrappers
  import NoteMapper
  import NoteTable

  /** Why `main`'s loop stops: the spectral stage raised on chunk `idx`, or
      `float(fft_len) * idx / sample_rate_file` divided by a zero rate. */
  datatype DriverError = ChunkStageFailed(idx: nat) | ZeroDivision

  datatype Detections = Detections(noteNames: seq<string>, times: seq<real>)

  /** `time = float(fft_len) * idx / sample_rate_file`: the start of chunk `idx` in seconds. */
  function ChunkTime(fftLen: int, idx: nat, sampleRate: int): (t: real)
    requires sampleRate != 0
    ensures idx == 0 || fftLen == 0 ==> t == 0.0
    ensures fftLen > 0 && sampleRate > 0 && idx > 0 ==> t > 0.0
  {
    (fftLen as real) * (idx as real) / (sampleRate as real)
  }

  /** The names the inner loop appends for one chunk's frequencies. */
  function NamesOf(table: seq<NoteMapper.NoteFreq>, freqs: seq<real>): (names: seq<string>)
    ensures |names| == |freqs|
  {
    seq(|freqs|, j requires 0 <= j < |freqs| => NoteMapper.NearestNote(table, freqs[j]))
  }

  lemma NamesOfExtend(table: seq<NoteMapper.NoteFreq>, freqs: seq<real>, j: nat)
    requires j < |freqs|
    ensures NamesOf(table, freqs[..j + 1]) == NamesOf(table, freqs[..j]) + [NoteMapper.NearestNote(table, freqs[j])]
  {
    assert freqs[..j + 1][..j] == freqs[..j];
  }

  /** `note_names` after the first `n` chunks: one name per reported frequency. */
  function NamesUpTo(table: seq<NoteMapper.NoteFreq>, chunkFreqs: seq<seq<real>>, n: nat): (names: seq<string>)
    requires n <= |chunkFreqs|
    ensures |names| == PeakCount(chunkFreqs, n)
  {
    if n == 0 then [] else NamesUpTo(table, chunkFreqs, n - 1) + NamesOf(table, chunkFreqs[n - 1])
  }

  /** `times` after the first `n` chunks: chunk `idx`'s time once per frequency it reported. */
  function TimesUpTo(chunkFreqs: seq<seq<real>>, fftLen: int, sampleRate: int, n: nat): (times: seq<real>)
    requires n <= |chunkFreqs| && (sampleRate != 0 || n == 0)
    ensures |times| == PeakCount(chunkFreqs, n)
  {
    if n == 0 then []
    else
      var time := ChunkTime(fftLen, n - 1, sampleRate);
      TimesUpTo(chunkFreqs, fftLen, sampleRate, n - 1) + seq(|chunkFreqs[n - 1]|, _ => time)
  }

  /** How many frequencies the first `n` chunks reported. */
  function PeakCount(chunkFreqs: seq<seq<real>>, n: nat): nat
    requires n <= |chunkFreqs|
  {
    if n == 0 then 0 else PeakCount(chunkFreqs, n - 1) + |chunkFreqs[n - 1]|
  }

  /** The frequencies of every chunk whose stage completed; a chunk that raised
      contributes none (the loop never gets past it). */
  function Reported(stage: seq<Option<seq<real>>>): (chunkFreqs: seq<seq<real>>)
    ensures |chunkFreqs| == |stage|
  {
    seq(|stage|, i requires 0 <= i < |stage| => if stage[i].Some? then stage[i].value else [])
  }

  /** The loop runs to the end: no chunk's stage raises, and the rate is non-zero
      whenever there is a chunk to time. */
  predicate Completes(stage: seq<Option<seq<real>>>, sampleRate: int)
  {
    && (forall i :: 0 <= i < |stage| ==> stage[i].Some?)
    && (sampleRate != 0 || |stage| == 0)
  }

  /**
   * The loop of `main` over the chunks, with `ordered_note_freq = get_all_notes_freq()`
   * turned into Hz by `pitch`. Each iteration first runs the chunk's spectral stage,
   * which may raise, then computes the chunk's time, which raises at rate 0.
   */
  method DetectNotes(pitch: int -> real, stage: seq<Option<seq<real>>>, fftLen: int, sampleRate: int)
    returns (r: Result<Detections, DriverError>)
    ensures r.Success? <==> Completes(stage, sampleRate)
    ensures r.Failure? && r.error.ChunkStageFailed? ==>
      && r.error.idx < |stage| && stage[r.error.idx].None?
      && (forall i :: 0 <= i < r.error.idx ==> stage[i].Some?)
      && (sampleRate == 0 ==> r.error.idx == 0)
    ensures r.Failure? && r.error.ZeroDivision? ==> sampleRate == 0 && |stage| > 0 && stage[0].Some?
    ensures r.Success? ==>
      r.value.noteNames == NamesUpTo(NoteTable.FreqTable(pitch), Reported(stage), |stage|)
    ensures r.Success? ==>
      r.value.times == TimesUpTo(Reported(stage), fftLen, sampleRate, |stage|)
  {
    var entries := NoteTable.GetAllNotesFreq();
    var orderedNoteFreq := seq(|entries|, k requires 0 <= k < |entries| =>
      NoteMapper.NoteFreq(entries[k].name, pitch(entries[k].semitones)));
    assert orderedNoteFreq == NoteTable.FreqTable(pitch);
    ghost var chunkFreqs := Reported(stage);
    var noteNames: seq<string> := [];
    var times: seq<real> := [];
    var idx := 0;
    while idx < |stage|
      invariant 0 <= idx <= |stage|
      invariant forall i :: 0 <= i < idx ==> stage[i].Some?
      invariant idx > 0 ==> sampleRate != 0
      invariant noteNames == NamesUpTo(orderedNoteFreq, chunkFreqs, idx)
      invariant times == TimesUpTo(chunkFreqs, fftLen, sampleRate, idx)
    {
      if stage[idx].None? {
        return Failure(ChunkStageFailed(idx));
      }
      var allFreqs := stage[idx].value;
      assert chunkFreqs[idx] == allFreqs;
      if sampleRate == 0 {
        return Failure(ZeroDivision);
      }
      var time := ChunkTime(fftLen, idx, sampleRate);
      noteNames, times := AppendChunk(orderedNoteFreq, allFreqs, time, noteNames, times);
      assert NamesUpTo(orderedNoteFreq, chunkFreqs, idx + 1) == NamesUpTo(orderedNoteFreq, chunkFreqs, idx) + NamesOf(orderedNoteFreq, allFreqs);
      idx := idx + 1;
    }
    return Success(Detections(noteNames, times));
  }

  /** The inner loop `for freq in all_freqs`: one nearest-note name and one copy of the
      chunk's time per frequency, appended in order. */
  method AppendChunk(table: seq<NoteMapper.NoteFreq>, allFreqs: seq<real>, time: real,
                     noteNames: seq<string>, times: seq<real>)
    returns (noteNames': seq<string>, times': seq<real>)
    ensures noteNames' == noteNames + NamesOf(table, allFreqs)
    ensures times' == times + seq(|allFreqs|, _ => time)
  {
    noteNames', times' := noteNames, times;
    var j := 0;
    while j < |allFreqs|
      invariant 0 <= j <= |allFreqs|
      invariant noteNames' == noteNames + NamesOf(table, allFreqs[..j])
      invariant times' == times + seq(j, _ => time)
    {
      var noteName := NoteMapper.FindNearestNote(table, allFreqs[j]);
      NamesOfExtend(table, allFreqs, j);
      noteNames' := noteNames' + [noteName];
      times' := times' + [time];
      j := j + 1;
    }
    assert allFreqs[..j] == allFreqs;
  }

  // Properties of the accumulated lists

  /** The `j`-th frequency of chunk `idx` sits at position `PeakCount(idx) + j` of
      `note_names`, under the name of its nearest note. */
  lemma {:induction false} NameAt(table: seq<NoteMapper.NoteFreq>, chunkFreqs: seq<seq<real>>,
                                  n: nat, idx: nat, j: nat)
    requires n <= |chunkFreqs| && idx < n && j < |chunkFreqs[idx]|
    ensures PeakCount(chunkFreqs, idx) + j < PeakCount(chunkFreqs, n)
    ensures NamesUpTo(table, chunkFreqs, n)[PeakCount(chunkFreqs, idx) + j]
         == NoteMapper.NearestNote(table, chunkFreqs[idx][j])
  {
    var p := PeakCount(chunkFreqs, idx) + j;
    var pre := NamesUpTo(table, chunkFreqs, n - 1);
    assert NamesUpTo(table, chunkFreqs, n) == pre + NamesOf(table, chunkFreqs[n - 1]);
    if idx < n - 1 {
      NameAt(table, chunkFreqs, n - 1, idx, j);
      assert p < |pre|;
    } else {
      assert p == |pre| + j;
    }
  }

  /** ... and at the same position of `times`, with the chunk's start time. */
  lemma {:induction false} TimeAt(chunkFreqs: seq<seq<real>>, fftLen: int, sampleRate: int,
                                  n: nat, idx: nat, j: nat)
    requires n <= |chunkFreqs| && sampleRate != 0
    requires idx < n && j < |chunkFreqs[idx]|
    ensures PeakCount(chunkFreqs, idx) + j < PeakCount(chunkFreqs, n)
    ensures TimesUpTo(chunkFreqs, fftLen, sampleRate, n)[PeakCount(chunkFreqs, idx) + j]
         == ChunkTime(fftLen, idx, sampleRate)
  {
    var p := PeakCount(chunkFreqs, idx) + j;
    var pre := TimesUpTo(chunkFreqs, fftLen, sampleRate, n - 1);
    var time := ChunkTime(fftLen, n - 1, sampleRate);
    assert TimesUpTo(chunkFreqs, fftLen, sampleRate, n) == pre + seq(|chunkFreqs[n - 1]|, _ => time);
    if idx < n - 1 {
      TimeAt(chunkFreqs, fftLen, sampleRate, n - 1, idx, j);
      assert p < |pre|;
    } else {
      assert p == |pre| + j;
    }
  }

  /** Later chunks start no earlier, for a positive rate and a non-negative FFT length. */
  lemma ChunkTimeMonotone(fftLen: int, a: nat, b: nat, sampleRate: int)
    requires fftLen >= 0 && sampleRate > 0 && a <= b
    ensures 0.0 <= ChunkTime(fftLen, a, sampleRate) <= ChunkTime(fftLen, b, sampleRate)
  {
    var f, r := fftLen as real, sampleRate as real;
    assert f * (a as real) <= f * (b as real) by {
      assert f * (b as real) - f * (a as real) == f * ((b - a) as real);
    }
    assert 0.0 <= f * (a as real);
  }

  predicate NonDecreasing(s: seq<real>)
  {
    forall a, b :: 0 <= a <= b < |s| ==> s[a] <= s[b]
  }

  /** `times` never goes backwards, and every entry is at most the last chunk's time. */
  lemma {:induction false} TimesNonDecreasing(chunkFreqs: seq<seq<real>>, fftLen: int, sampleRate: int, n: nat)
    requires n <= |chunkFreqs| && fftLen >= 0 && sampleRate > 0
    ensures NonDecreasing(TimesUpTo(chunkFreqs, fftLen, sampleRate, n))
    ensures n > 0 ==> forall p :: 0 <= p < |TimesUpTo(chunkFreqs, fftLen, sampleRate, n)| ==>
      TimesUpTo(chunkFreqs, fftLen, sampleRate, n)[p] <= ChunkTime(fftLen, n - 1, sampleRate)
  {
    if n > 0 {
      TimesNonDecreasing(chunkFreqs, fftLen, sampleRate, n - 1);
      var pre := TimesUpTo(chunkFreqs, fftLen, sampleRate, n - 1);
      var t := TimesUpTo(chunkFreqs, fftLen, sampleRate, n);
      var time := ChunkTime(fftLen, n - 1, sampleRate);
      assert t == pre + seq(|chunkFreqs[n - 1]|, _ => time);
      if n > 1 {
        ChunkTimeMonotone(fftLen, n - 2, n - 1, sampleRate);
      }
      assert forall p :: 0 <= p < |pre| ==> pre[p] <= time;
      forall a, b | 0 <= a <= b < |t| ensures t[a] <= t[b] {
        if b < |pre| {
          assert t[a] == pre[a] && t[b] == pre[b];
        } else if a < |pre| {
          assert t[a] == pre[a] && t[b] == time;
        } else {
          assert t[a] == time && t[b] == time;
        }
      }
      forall p | 0 <= p < |t| ensures t[p] <= time {
        if p < |pre| {
          assert t[p] == pre[p];
        }
      }
    }
  }

  /** Chunks that report no frequency add nothing to either list. */
  lemma {:induction false} SilentChunksAddNothing(table: seq<NoteMapper.NoteFreq>, chunkFreqs: seq<seq<real>>,
                                                  fftLen: int, sampleRate: int, n: nat)
    requires n <= |chunkFreqs| && (sampleRate != 0 || n == 0)
    requires forall idx :: 0 <= idx < n ==> chunkFreqs[idx] == []
    ensures NamesUpTo(table, chunkFreqs, n) == []
    ensures TimesUpTo(chunkFreqs, fftLen, sampleRate, n) == []
  {
    if n > 0 {
      SilentChunksAddNothing(table, chunkFreqs, fftLen, sampleRate, n - 1);
      assert NamesOf(table, chunkFreqs[n - 1]) == [];
    }
  }

  /**
   * A chunk frequency equal to the exact pitch of table entry k is reported under
   * that entry's name, at its chunk's time.
   */
  lemma ExactFrequencyIsNamed(pitch: int -> real, chunkFreqs: seq<seq<real>>,
                              fftLen: int, sampleRate: int, idx: nat, j: nat, k: nat)
    requires NoteTable.IncreasingPitch(pitch) && pitch(26) - pitch(-33) <= NoteMapper.Sentinel
    requires sampleRate != 0 && idx < |chunkFreqs| && j < |chunkFreqs[idx]| && k < 60
    requires chunkFreqs[idx][j] == pitch(NoteTable.Table()[k].semitones)
    ensures var p := PeakCount(chunkFreqs, idx) + j;
      && p < PeakCount(chunkFreqs, |chunkFreqs|)
      && NamesUpTo(NoteTable.FreqTable(pitch), chunkFreqs, |chunkFreqs|)[p] == NoteTable.Table()[k].name
      && TimesUpTo(chunkFreqs, fftLen, sampleRate, |chunkFreqs|)[p] == ChunkTime(fftLen, idx, sampleRate)
  {
    NameAt(NoteTable.FreqTable(pitch), chunkFreqs, |chunkFreqs|, idx, j);
    TimeAt(chunkFreqs, fftLen, sampleRate, |chunkFreqs|, idx, j);
    NoteTable.ExactPitchFindsNote(pitch, k);
  }
}
