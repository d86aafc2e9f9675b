/**
 * The note table builder: `freq_for_note` and `get_all_notes_freq`. Every
 * pitch is kept as its whole number of equal-tempered semitones above A4
 * (440 Hz); `freq_for_note`'s `math.pow` is the map from that offset to Hz,
 * which the model takes as a parameter `pitch`.
 */
module NoteTable {
  import opened Wrappers
  import NoteMapper

  /** A table entry: the note's name and its offset from A4 in semitones. */
  datatype NoteEntry = NoteEntry(name: string, semitones: int)

  /** `ordered_notes`. */
  const OrderedNotes: seq<string> := ["C", "C#", "D", "D#", "E", "F", "F#", "G", "G#", "A", "A#", "B"]

  /** `base_notes_freq`: A2 = A4 / 4, ..., A6 = A4 * 4, as semitones from A4. */
  const BaseNotes: map<string, int> := map["A2" := -24, "A3" := -12, "A4" := 0, "A5" := 12, "A6" := 24]

  /** `scale_notes_index = list(range(-9, 5))`: fourteen offsets from the octave's A. */
  const ScaleNotesIndex: seq<int> := [-9, -8, -7, -6, -5, -4, -3, -2, -1, 0, 1, 2, 3, 4]

  /**
   * `freq_for_note(base_note, note_index)` as a semitone offset from A4. An
   * unknown base note raises `KeyError` and an index outside the list raises
   * `IndexError` (both `None` here); a negative index counts from the end.
   */
  function FreqForNote(baseNote: string, noteIndex: int): (r: Option<int>)
    ensures r.Some? <==> baseNote in BaseNotes && -14 <= noteIndex < 14
    ensures r.Some? && noteIndex >= 0 ==> r.value == BaseNotes[baseNote] + noteIndex - 9
    ensures r.Some? && noteIndex < 0 ==> r.value == BaseNotes[baseNote] + noteIndex + 5
  {
    if baseNote !in BaseNotes || !(-|ScaleNotesIndex| <= noteIndex < |ScaleNotesIndex|) then None
    else
      var i := if noteIndex >= 0 then noteIndex else |ScaleNotesIndex| + noteIndex;
      Some(BaseNotes[baseNote] + ScaleNotesIndex[i])
  }

  /** `str(octave_index)` for a one-digit octave. */
  function OctaveString(octave: nat): (s: string)
    requires octave <= 9
    ensures |s| == 1 && '0' <= s[0] <= '9'
  {
    [('0' as int + octave) as char]
  }

  /** `"A" + str(octave_index)`. */
  function BaseNoteName(octave: nat): (s: string)
    requires octave <= 9
    ensures |s| == 2 && s[0] == 'A'
  {
    "A" + OctaveString(octave)
  }

  /** `ordered_notes[note_index] + "_" + str(octave_index)`. */
  function NoteName(noteIndex: nat, octave: nat): (s: string)
    requires noteIndex < 12 && octave <= 9
    ensures |s| == |OrderedNotes[noteIndex]| + 2 && s[|s| - 2] == '_'
  {
    OrderedNotes[noteIndex] + "_" + OctaveString(octave)
  }

  /** The base note of octave 2..6 is a key of `base_notes_freq`, 12 semitones per octave from A4. */
  lemma BaseNoteOfOctave(octave: nat)
    requires 2 <= octave <= 6
    ensures BaseNoteName(octave) in BaseNotes
    ensures BaseNotes[BaseNoteName(octave)] == 12 * (octave - 4)
  {
    if octave == 2 { assert BaseNoteName(octave) == "A2"; }
    else if octave == 3 { assert BaseNoteName(octave) == "A3"; }
    else if octave == 4 { assert BaseNoteName(octave) == "A4"; }
    else if octave == 5 { assert BaseNoteName(octave) == "A5"; }
    else { assert BaseNoteName(octave) == "A6"; }
  }

  /** Note `noteIndex` of octave `octave` lies `12 * (octave - 4) + noteIndex - 9` semitones from A4. */
  lemma FreqForNoteInOctave(octave: nat, noteIndex: nat)
    requires 2 <= octave <= 6 && noteIndex < 12
    ensures FreqForNote(BaseNoteName(octave), noteIndex) == Some(12 * (octave - 4) + noteIndex - 9)
  {
    BaseNoteOfOctave(octave);
  }

  /** Entry k of the table: note `k % 12` of octave `2 + k / 12`, offset `k - 33`. */
  function Entry(k: nat): NoteEntry
    requires k < 60
  {
    NoteEntry(NoteName(k % 12, 2 + k / 12), k - 33)
  }

  /** The whole table, as a closed form. */
  function Table(): (t: seq<NoteEntry>)
    ensures |t| == 60
  {
    seq(60, k requires 0 <= k < 60 => Entry(k))
  }

  /** `get_all_notes_freq()`: five octaves of twelve names, in order, each with its offset. */
  method GetAllNotesFreq() returns (orderedNoteFreq: seq<NoteEntry>)
    ensures orderedNoteFreq == Table()
  {
    orderedNoteFreq := [];
    var octaveIndex := 2;
    while octaveIndex < 7
      invariant 2 <= octaveIndex <= 7
      invariant |orderedNoteFreq| == 12 * (octaveIndex - 2)
      invariant orderedNoteFreq == Table()[..|orderedNoteFreq|]
    {
      var baseNote := "A" + OctaveString(octaveIndex);
      var noteIndex := 0;
      while noteIndex < 12
        invariant 0 <= noteIndex <= 12
        invariant |orderedNoteFreq| == 12 * (octaveIndex - 2) + noteIndex
        invariant orderedNoteFreq == Table()[..|orderedNoteFreq|]
      {
        FreqForNoteInOctave(octaveIndex, noteIndex);
        var noteFreq := FreqForNote(baseNote, noteIndex);
        var noteName := OrderedNotes[noteIndex] + "_" + OctaveString(octaveIndex);
        EntryPosition(octaveIndex, noteIndex);
        TablePrefixExtend(|orderedNoteFreq|);
        orderedNoteFreq := orderedNoteFreq + [NoteEntry(noteName, noteFreq.value)];
        noteIndex := noteIndex + 1;
      }
      octaveIndex := octaveIndex + 1;
    }
    assert Table()[..60] == Table();
  }

  lemma TablePrefixExtend(k: nat)
    requires k < 60
    ensures Table()[..k + 1] == Table()[..k] + [Entry(k)]
  {
  }

  /** Position `12 * (o - 2) + i` of the table holds note i of octave o. */
  lemma EntryPosition(octave: nat, noteIndex: nat)
    requires 2 <= octave <= 6 && noteIndex < 12
    ensures Entry(12 * (octave - 2) + noteIndex) == NoteEntry(NoteName(noteIndex, octave), 12 * (octave - 4) + noteIndex - 9)
  {
    var k := 12 * (octave - 2) + noteIndex;
    assert k % 12 == noteIndex && 2 + k / 12 == octave;
  }

  // Properties of the table

  /** Entry `12 * (o - 2) + i` is named after note i of octave o, and its offset is
      what `freq_for_note("A" + str(o), i)` computes, `12 * (o - 4) + i - 9`. */
  lemma TableLayout(octave: nat, noteIndex: nat)
    requires 2 <= octave <= 6 && noteIndex < 12
    ensures Table()[12 * (octave - 2) + noteIndex].name == NoteName(noteIndex, octave)
    ensures FreqForNote(BaseNoteName(octave), noteIndex) == Some(Table()[12 * (octave - 2) + noteIndex].semitones)
  {
    FreqForNoteInOctave(octave, noteIndex);
    var k := 12 * (octave - 2) + noteIndex;
    assert k % 12 == noteIndex && k / 12 == octave - 2;
  }

  /** The ends and the anchors: C_2 first, B_6 last, A_2, A_4 and A_5 at -24, 0 and 12 semitones. */
  lemma TableAnchors()
    ensures Table()[0] == NoteEntry("C_2", -33)
    ensures Table()[59] == NoteEntry("B_6", 26)
    ensures Table()[9] == NoteEntry("A_2", -24)
    ensures Table()[33] == NoteEntry("A_4", 0)
    ensures Table()[45] == NoteEntry("A_5", 12)
  {
    assert NoteName(0, 2) == "C_2";
    assert NoteName(11, 6) == "B_6";
    assert NoteName(9, 2) == "A_2";
    assert NoteName(9, 4) == "A_4";
    assert NoteName(9, 5) == "A_5";
  }

  /** Offsets are consecutive, hence strictly increasing. */
  lemma TableAscending(a: nat, b: nat)
    requires a < b < 60
    ensures Table()[b].semitones - Table()[a].semitones == b - a > 0
  {
  }

  lemma OrderedNotesDistinct(i: nat, j: nat)
    requires i < j < 12
    ensures OrderedNotes[i] != OrderedNotes[j]
  {
  }

  /** Different (note, octave) pairs give different names. */
  lemma NoteNamesDiffer(i: nat, o: nat, i': nat, o': nat)
    requires i < 12 && o <= 9 && i' < 12 && o' <= 9
    requires i != i' || o != o'
    ensures NoteName(i, o) != NoteName(i', o')
  {
    var n, n' := NoteName(i, o), NoteName(i', o');
    var l, l' := OrderedNotes[i], OrderedNotes[i'];
    if |l| == |l'| {
      if o != o' {
        assert n[|n| - 1] == OctaveString(o)[0] != OctaveString(o')[0] == n'[|n'| - 1];
      } else {
        if i < i' { OrderedNotesDistinct(i, i'); } else { OrderedNotesDistinct(i', i); }
        assert n[..|l|] == l != l' == n'[..|l'|];
      }
    }
  }

  /** No two entries share a name. */
  lemma TableNamesDistinct(a: nat, b: nat)
    requires a < b < 60
    ensures Table()[a].name != Table()[b].name
  {
    assert a == 12 * (a / 12) + a % 12 && b == 12 * (b / 12) + b % 12;
    NoteNamesDiffer(a % 12, 2 + a / 12, b % 12, 2 + b / 12);
  }

  /** The `(note_name, note_freq)` table `main` searches, with `pitch` giving Hz for a semitone offset. */
  function FreqTable(pitch: int -> real): (t: seq<NoteMapper.NoteFreq>)
    ensures |t| == 60
  {
    seq(60, k requires 0 <= k < 60 => NoteMapper.NoteFreq(Table()[k].name, pitch(Table()[k].semitones)))
  }

  /** Pitch increasing over the table's offsets. */
  predicate IncreasingPitch(pitch: int -> real)
  {
    forall a, b :: -33 <= a < b <= 26 ==> pitch(a) < pitch(b)
  }

  /** With an increasing pitch map the frequency table is ascending, as the nearest-note scan assumes. */
  lemma FreqTableAscending(pitch: int -> real)
    requires IncreasingPitch(pitch)
    ensures NoteMapper.Ascending(FreqTable(pitch))
  {
    var t := FreqTable(pitch);
    forall a, b | 0 <= a < b < 60 ensures t[a].freq < t[b].freq {
      assert Table()[a].semitones == a - 33 && Table()[b].semitones == b - 33;
      assert t[a].freq == pitch(a - 33) && t[b].freq == pitch(b - 33);
    }
  }

  /** A4 is 440 Hz: entry 33 carries offset 0, so its frequency is `pitch(0)`. */
  lemma FreqTableA4(pitch: int -> real)
    requires pitch(0) == 440.0
    ensures FreqTable(pitch)[33] == NoteMapper.NoteFreq("A_4", 440.0)
  {
    TableAnchors();
  }

  /**
   * Looking up the exact frequency of a table entry gives that entry's name, for any
   * increasing pitch map whose range over the table (C_2 to B_6) is below the scan's
   * sentinel distance, as 65 Hz to 1976 Hz is.
   */
  lemma ExactPitchFindsNote(pitch: int -> real, k: nat)
    requires IncreasingPitch(pitch) && pitch(26) - pitch(-33) <= NoteMapper.Sentinel
    requires k < 60
    ensures NoteMapper.NearestNote(FreqTable(pitch), pitch(Table()[k].semitones)) == Table()[k].name
  {
    var t := FreqTable(pitch);
    FreqTableAscending(pitch);
    assert Table()[k].semitones == k - 33 && Table()[0].semitones == -33;
    assert t[k].freq == pitch(k - 33) && t[0].freq == pitch(-33);
    assert pitch(k - 33) <= pitch(26) by {
      if k < 59 { assert pitch(k - 33) < pitch(26); }
    }
    NoteMapper.AscendingExact(t, k);
  }
}
