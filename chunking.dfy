/**
 * The framer: `divide_buffer_into_non_overlapping_chunks`, which computes the
 * split points `i * max_len` for `i` in `1 .. chunks - 1` and hands them to
 * `np.split`. The last piece therefore absorbs the remainder.
 */
module Chunking {
  import opened Wrappers

  /** The exception `buffer_len / max_len` raises when `max_len` is zero. */
  datatype ChunkError = ZeroDivision

  function Abs(x: int): nat { if x < 0 then -x else x }

  /** Python's `int(a / b)`: the quotient rounded toward zero. */
  function TruncDiv(a: nat, b: int): (q: int)
    requires b != 0
    ensures b > 0 ==> q >= 0
    ensures b < 0 ==> q <= 0
    ensures Abs(q) * Abs(b) <= a < (Abs(q) + 1) * Abs(b)
  {
    if b > 0 then a / b else -(a / -b)
  }

  /** The concatenation of the pieces, in order. */
  function Flatten<T>(pieces: seq<seq<T>>): seq<T>
  {
    if pieces == [] then [] else pieces[0] + Flatten(pieces[1..])
  }

  /** Split points that `np.split` can cut at without producing overlaps:
      non-decreasing, starting at or after `start`, and inside the buffer. */
  predicate ValidCuts(n: nat, start: nat, points: seq<nat>)
  {
    && start <= n
    && (forall k :: 0 <= k < |points| ==> points[k] <= n)
    && (|points| > 0 ==> start <= points[0])
    && (forall k :: 0 < k < |points| ==> points[k - 1] <= points[k])
  }

  /** The k-th boundary of a split of a buffer of length n: `start` first, then
      the points, then the end of the buffer. */
  function Boundary(start: nat, points: seq<nat>, n: nat, k: nat): nat
    requires k <= |points| + 1
  {
    if k == 0 then start else if k <= |points| then points[k - 1] else n
  }

  /** `np.split(buffer[start:], points)`: the pieces between consecutive points. */
  function Split<T>(s: seq<T>, start: nat, points: seq<nat>): (pieces: seq<seq<T>>)
    requires ValidCuts(|s|, start, points)
    ensures |pieces| == |points| + 1
    decreases |points|
  {
    if points == [] then [s[start..]]
    else [s[start..points[0]]] + Split(s, points[0], points[1..])
  }

  /** Piece k of the split is the slice between boundaries k and k + 1. */
  lemma {:induction false} SplitPiece<T>(s: seq<T>, start: nat, points: seq<nat>, k: nat)
    requires ValidCuts(|s|, start, points)
    requires k <= |points|
    ensures Boundary(start, points, |s|, k) <= Boundary(start, points, |s|, k + 1) <= |s|
    ensures |Split(s, start, points)| == |points| + 1
    ensures Split(s, start, points)[k] == s[Boundary(start, points, |s|, k)..Boundary(start, points, |s|, k + 1)]
    decreases |points|
  {
    if k > 0 {
      var rest := points[1..];
      assert ValidCuts(|s|, points[0], rest);
      SplitPiece(s, points[0], rest, k - 1);
      assert Boundary(start, points, |s|, k) == Boundary(points[0], rest, |s|, k - 1);
      assert Boundary(start, points, |s|, k + 1) == Boundary(points[0], rest, |s|, k);
    }
  }

  lemma {:induction false} SplitFlatten<T>(s: seq<T>, start: nat, points: seq<nat>)
    requires ValidCuts(|s|, start, points)
    ensures Flatten(Split(s, start, points)) == s[start..]
    decreases |points|
  {
    if points == [] {
      assert Split(s, start, points) == [s[start..]];
      assert Flatten([s[start..]]) == s[start..] + Flatten([]);
    } else {
      var rest := points[1..];
      assert ValidCuts(|s|, points[0], rest);
      SplitFlatten(s, points[0], rest);
      var pieces := Split(s, start, points);
      assert pieces[1..] == Split(s, points[0], rest);
      assert s[start..points[0]] + s[points[0]..] == s[start..];
    }
  }

  /** The split points the loop builds: `i * maxLen` for `i` in `1 .. count`. */
  function Multiples(maxLen: nat, count: nat): (r: seq<nat>)
    ensures |r| == count
  {
    seq(count, k => (k + 1) * maxLen)
  }

  lemma MulLe(a: nat, b: nat, m: nat)
    requires a <= b
    ensures a * m <= b * m
  {
  }

  lemma MultiplesAreValidCuts(n: nat, maxLen: nat, count: nat)
    requires count * maxLen <= n
    ensures ValidCuts(n, 0, Multiples(maxLen, count))
  {
    var points := Multiples(maxLen, count);
    forall k | 0 <= k < |points| ensures points[k] <= n {
      MulLe(k + 1, count, maxLen);
    }
    forall k | 0 < k < |points| ensures points[k - 1] <= points[k] {
      MulLe(k, k + 1, maxLen);
    }
  }

  /** Cutting at the first `count - 1` multiples of `maxLen`: piece k < count - 1
      has `maxLen` samples; the last keeps everything after the last cut. */
  lemma UniformPiece<T>(s: seq<T>, maxLen: nat, count: nat, k: nat)
    requires 1 <= count && (count - 1) * maxLen <= |s|
    requires k < count
    ensures ValidCuts(|s|, 0, Multiples(maxLen, count - 1))
    ensures |Split(s, 0, Multiples(maxLen, count - 1))| == count
    ensures |Split(s, 0, Multiples(maxLen, count - 1))[k]| ==
      if k < count - 1 then maxLen else |s| - (count - 1) * maxLen
  {
    var points := Multiples(maxLen, count - 1);
    MultiplesAreValidCuts(|s|, maxLen, count - 1);
    SplitPiece(s, 0, points, k);
    assert Boundary(0, points, |s|, k) == k * maxLen;
    if k < count - 1 {
      assert Boundary(0, points, |s|, k + 1) == (k + 1) * maxLen;
    }
  }

  /** For a positive `maxLen` the loop bound `int(len / maxLen)` is the floor
      quotient, and the last piece's length `len - (q - 1) * maxLen` is at least
      `maxLen` and below `2 * maxLen`. */
  lemma LastPieceBounds(len: nat, maxLen: int)
    requires 0 < maxLen <= len
    ensures TruncDiv(len, maxLen) == len / maxLen >= 1
    ensures maxLen <= len - (len / maxLen - 1) * maxLen < 2 * maxLen
  {
    var q := len / maxLen;
    assert len == q * maxLen + len % maxLen;
    assert (q - 1) * maxLen == q * maxLen - maxLen;
  }

  /** What `divide_buffer_into_non_overlapping_chunks` promises of its pieces:
      `max(1, len / maxLen)` of them, concatenating back to the buffer, all of
      `maxLen` samples except the last, which holds the rest. */
  predicate IsChunking(buffer: seq<real>, maxLen: int, pieces: seq<seq<real>>)
  {
    && Flatten(pieces) == buffer
    && |pieces| == (if 0 < maxLen <= |buffer| then |buffer| / maxLen else 1)
    && (forall k :: 0 <= k < |pieces| - 1 ==> |pieces[k]| == maxLen)
    && |pieces[|pieces| - 1]| == |buffer| - (|pieces| - 1) * maxLen
    && (0 < maxLen <= |buffer| ==> maxLen <= |pieces[|pieces| - 1]| < 2 * maxLen)
    && ((maxLen < 0 || |buffer| < maxLen) ==> pieces == [buffer])
  }

  /** Pieces of the right number and lengths that concatenate to the buffer form a chunking. */
  lemma ChunkingByLengths(buffer: seq<real>, maxLen: nat, pieces: seq<seq<real>>)
    requires maxLen > 0 && Flatten(pieces) == buffer
    requires |pieces| == if maxLen <= |buffer| then |buffer| / maxLen else 1
    requires forall k :: 0 <= k < |pieces| - 1 ==> |pieces[k]| == maxLen
    requires |pieces[|pieces| - 1]| == |buffer| - (|pieces| - 1) * maxLen
    ensures IsChunking(buffer, maxLen, pieces)
  {
    if maxLen <= |buffer| {
      LastPieceBounds(|buffer|, maxLen);
    } else {
      assert pieces[1..] == [];
      assert Flatten(pieces) == pieces[0] + Flatten([]);
      assert pieces[0] + [] == pieces[0];
      assert pieces == [buffer];
    }
  }

  /** Cutting at the multiples of a positive `maxLen`, `count - 1` of them, is a chunking. */
  lemma PositiveSplit(buffer: seq<real>, maxLen: nat, count: nat)
    requires maxLen > 0
    requires count == if maxLen <= |buffer| then |buffer| / maxLen else 1
    ensures ValidCuts(|buffer|, 0, Multiples(maxLen, count - 1))
    ensures IsChunking(buffer, maxLen, Split(buffer, 0, Multiples(maxLen, count - 1)))
  {
    var points := Multiples(maxLen, count - 1);
    if maxLen <= |buffer| {
      LastPieceBounds(|buffer|, maxLen);
      MulLe(count - 1, count, maxLen);
    }
    MultiplesAreValidCuts(|buffer|, maxLen, count - 1);
    var pieces := Split(buffer, 0, points);
    SplitFlatten(buffer, 0, points);
    forall k | 0 <= k < count ensures |pieces[k]| == if k < count - 1 then maxLen else |buffer| - (count - 1) * maxLen {
      UniformPiece(buffer, maxLen, count, k);
    }
    ChunkingByLengths(buffer, maxLen, pieces);
  }

  /** A negative `maxLen` gives no cut points, hence the whole buffer as one piece. */
  lemma NegativeSplit(buffer: seq<real>, maxLen: int)
    requires maxLen < 0
    ensures IsChunking(buffer, maxLen, [buffer])
  {
    assert Flatten([buffer]) == buffer + Flatten([]);
  }

  /**
   * `divide_buffer_into_non_overlapping_chunks(buffer, max_len)`.
   * A zero `max_len` raises; otherwise the result is a chunking of the buffer.
   */
  method DivideIntoChunks(buffer: seq<real>, maxLen: int) returns (r: Result<seq<seq<real>>, ChunkError>)
    ensures r.Failure? <==> maxLen == 0
    ensures r.Success? ==> IsChunking(buffer, maxLen, r.value)
  {
    if maxLen == 0 {
      return Failure(ZeroDivision);
    }
    var bufferLen := |buffer|;
    var chunks := TruncDiv(bufferLen, maxLen);
    var divisionPoints: seq<nat> := [];
    var i := 1;
    while i < chunks
      invariant 1 <= i && (i <= chunks || i == 1)
      invariant 1 < chunks ==> maxLen > 0
      invariant maxLen > 0 ==> divisionPoints == Multiples(maxLen, i - 1)
      invariant maxLen < 0 ==> divisionPoints == []
    {
      MulLe(0, i, maxLen);
      divisionPoints := divisionPoints + [i * maxLen];
      assert divisionPoints == Multiples(maxLen, i);
      i := i + 1;
    }
    if maxLen > 0 {
      var count := if maxLen <= bufferLen then bufferLen / maxLen else 1;
      if maxLen <= bufferLen {
        LastPieceBounds(bufferLen, maxLen);
      }
      assert divisionPoints == Multiples(maxLen, count - 1);
      PositiveSplit(buffer, maxLen, count);
      r := Success(Split(buffer, 0, divisionPoints));
    } else {
      NegativeSplit(buffer, maxLen);
      r := Success([buffer]);
    }
  }
}
