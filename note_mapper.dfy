/**
 * The note mapper: `find_nearest_note`, a linear scan over the note table
 * that keeps the smallest distance seen so far (starting from the sentinel
 * 1,000,000), replaces the match only on a strictly smaller distance, and
 * stops at the first entry whose distance is larger than the previous one.
 */
module NoteMapper {

  /** One `(note_name, note_freq)` pair of the note table. */
  datatype NoteFreq = NoteFreq(name: string, freq: real)

  const NotFound: string := "note_not_found"

  /** The starting value of `last_dist`. */
  const Sentinel: real := 1000000.0

  function Abs(r: real): real { if r < 0.0 then -r else r }

  /** `abs(note_freq - freq)` for entry k. */
  function Dist(table: seq<NoteFreq>, x: real, k: nat): (d: real)
    requires k < |table|
    ensures d >= 0.0
    ensures d == table[k].freq - x || d == x - table[k].freq
  {
    Abs(table[k].freq - x)
  }

  /** Frequencies strictly increasing along the table. */
  predicate Ascending(table: seq<NoteFreq>)
  {
    forall a, b :: 0 <= a < b < |table| ==> table[a].freq < table[b].freq
  }

  /** Entry k is farther than the entry before it (than the sentinel, for the first). */
  predicate RisesAt(table: seq<NoteFreq>, x: real, k: nat)
    requires k < |table|
  {
    Dist(table, x, k) > if k == 0 then Sentinel else Dist(table, x, k - 1)
  }

  /** The first index at or after `from` where the distance rises, or the table's length. */
  function FirstRise(table: seq<NoteFreq>, x: real, from: nat): (s: nat)
    requires from <= |table|
    ensures from <= s <= |table|
    ensures forall k :: from <= k < s ==> !RisesAt(table, x, k)
    ensures s < |table| ==> RisesAt(table, x, s)
    decreases |table| - from
  {
    if from == |table| || RisesAt(table, x, from) then from else FirstRise(table, x, from + 1)
  }

  /** The first index of least distance among the first `hi` entries. */
  function FirstNearest(table: seq<NoteFreq>, x: real, hi: nat): (j: nat)
    requires 0 < hi <= |table|
    ensures j < hi
    ensures forall k :: 0 <= k < hi ==> Dist(table, x, j) <= Dist(table, x, k)
    ensures forall k :: 0 <= k < j ==> Dist(table, x, k) > Dist(table, x, j)
  {
    if hi == 1 then 0
    else
      var j := FirstNearest(table, x, hi - 1);
      if Dist(table, x, hi - 1) < Dist(table, x, j) then hi - 1 else j
  }

  /**
   * What the scan returns, stated without the loop: it stops at the first rise;
   * the entries before the stop are the ones it saw, and it answers with the
   * first of them at least distance, provided that distance is below the sentinel.
   */
  function NearestNote(table: seq<NoteFreq>, x: real): (name: string)
    ensures name == NotFound || exists k :: 0 <= k < |table| && table[k].name == name && Dist(table, x, k) < Sentinel
  {
    var stop := FirstRise(table, x, 0);
    if stop > 0 && Dist(table, x, stop - 1) < Sentinel then table[FirstNearest(table, x, stop)].name
    else NotFound
  }

  /** `find_nearest_note(ordered_note_freq, freq)`. */
  method FindNearestNote(table: seq<NoteFreq>, freq: real) returns (finalNoteName: string)
    ensures finalNoteName == NearestNote(table, freq)
  {
    finalNoteName := NotFound;
    var lastDist := Sentinel;
    ghost var best := 0;
    var i := 0;
    while i < |table|
      invariant 0 <= i <= |table|
      invariant forall k :: 0 <= k < i ==> !RisesAt(table, freq, k)
      invariant lastDist == if i == 0 then Sentinel else Dist(table, freq, i - 1)
      invariant forall k :: 0 <= k < i ==> Dist(table, freq, k) >= lastDist
      invariant lastDist <= Sentinel
      invariant if i > 0 && lastDist < Sentinel
        then best == FirstNearest(table, freq, i) && finalNoteName == table[best].name
        else finalNoteName == NotFound
    {
      var currDist := Abs(table[i].freq - freq);
      if currDist < lastDist {
        lastDist := currDist;
        finalNoteName := table[i].name;
        best := i;
      } else if currDist > lastDist {
        assert RisesAt(table, freq, i);
        break;
      }
      i := i + 1;
    }
    assert i == |table| || RisesAt(table, freq, i);
    assert FirstRise(table, freq, 0) == i;
  }

  // Properties of the scan

  /** An empty table, or one where every entry is at least the sentinel away, gives `note_not_found`. */
  lemma NotFoundWhenNothingClose(table: seq<NoteFreq>, x: real)
    requires forall k :: 0 <= k < |table| ==> Dist(table, x, k) >= Sentinel
    ensures NearestNote(table, x) == NotFound
  {
  }

  /** The early exit fires at the first entry when it is farther than the sentinel:
      the scan then answers `note_not_found` whatever the later entries are. */
  lemma NotFoundWhenFirstBeyondSentinel(table: seq<NoteFreq>, x: real)
    requires |table| > 0 && Dist(table, x, 0) > Sentinel
    ensures NearestNote(table, x) == NotFound
  {
  }

  /** Before the first rise the distances never grow, so the last of them is the least. */
  lemma {:induction false} NoRiseMeansNonIncreasing(table: seq<NoteFreq>, x: real, s: nat)
    requires 0 < s <= |table|
    requires forall k :: 0 <= k < s ==> !RisesAt(table, x, k)
    ensures Dist(table, x, s - 1) <= Sentinel
    ensures forall k :: 0 <= k < s ==> Dist(table, x, s - 1) <= Dist(table, x, k)
  {
    if s > 1 {
      NoRiseMeansNonIncreasing(table, x, s - 1);
      assert !RisesAt(table, x, s - 1);
    } else {
      assert !RisesAt(table, x, 0);
    }
  }

  /** On an ascending table, once the distance rises at s it keeps rising: every
      later entry is farther than entry s - 1. */
  lemma RiseIsFinal(table: seq<NoteFreq>, x: real, s: nat)
    requires Ascending(table)
    requires 0 < s < |table| && RisesAt(table, x, s)
    ensures forall j :: s <= j < |table| ==> Dist(table, x, j) > Dist(table, x, s - 1)
  {
    assert table[s - 1].freq < table[s].freq;
    assert table[s].freq > x;
    forall j | s < j < |table| ensures Dist(table, x, j) > Dist(table, x, s - 1) {
      assert table[s].freq < table[j].freq;
    }
  }

  /** Two characterisations of "first index of least distance" agree. */
  lemma FirstNearestUnique(table: seq<NoteFreq>, x: real, hi: nat, j: nat)
    requires 0 < hi <= |table| && j < hi
    requires forall k :: 0 <= k < |table| ==> Dist(table, x, j) <= Dist(table, x, k)
    requires forall k :: 0 <= k < j ==> Dist(table, x, k) > Dist(table, x, j)
    ensures FirstNearest(table, x, hi) == j
  {
    var a := FirstNearest(table, x, hi);
    assert Dist(table, x, a) <= Dist(table, x, j);
  }

  /**
   * When the early exit is sound: on an ascending table, with the first entry
   * within the sentinel and some entry closer than it, the scan returns the name
   * of the nearest entry of the whole table, the lower one on a tie.
   */
  lemma AscendingFindsNearest(table: seq<NoteFreq>, x: real, w: nat)
    requires Ascending(table)
    requires |table| > 0 && Dist(table, x, 0) <= Sentinel
    requires w < |table| && Dist(table, x, w) < Sentinel
    ensures NearestNote(table, x) == table[FirstNearest(table, x, |table|)].name
  {
    var n := |table|;
    var s := FirstRise(table, x, 0);
    var m := FirstNearest(table, x, n);
    assert !RisesAt(table, x, 0);
    assert s > 0;
    NoRiseMeansNonIncreasing(table, x, s);
    if s < n {
      RiseIsFinal(table, x, s);
      assert Dist(table, x, m) <= Dist(table, x, s - 1);
      assert m < s;
      FirstNearestUnique(table, x, s, m);
    }
    assert Dist(table, x, s - 1) <= Dist(table, x, m) <= Dist(table, x, w);
  }

  /** Exactness: on an ascending table, the frequency of an entry that lies within
      the sentinel of the first entry maps to that entry's own name. */
  lemma AscendingExact(table: seq<NoteFreq>, k: nat)
    requires Ascending(table)
    requires k < |table| && table[k].freq - table[0].freq <= Sentinel
    ensures NearestNote(table, table[k].freq) == table[k].name
  {
    var x := table[k].freq;
    assert Dist(table, x, k) == 0.0;
    if k > 0 {
      assert table[0].freq < x;
    }
    AscendingFindsNearest(table, x, k);
    forall j | 0 <= j < |table| && j != k ensures Dist(table, x, j) > 0.0 {
      if j < k { assert table[j].freq < x; } else { assert table[j].freq > x; }
    }
    FirstNearestUnique(table, x, |table|, k);
  }

  /** The sentinel is not infinite: this ascending table holds the exact frequency,
      yet the first entry is more than 1,000,000 away and the scan gives up. */
  lemma EarlyExitMissesExactEntry()
    ensures var table := [NoteFreq("low", 0.0), NoteFreq("high", 2000000.0)];
      && Ascending(table)
      && Dist(table, 2000000.0, 1) == 0.0
      && NearestNote(table, 2000000.0) == NotFound
  {
    var table := [NoteFreq("low", 0.0), NoteFreq("high", 2000000.0)];
    assert RisesAt(table, 2000000.0, 0);
    assert FirstRise(table, 2000000.0, 0) == 0;
  }
}
