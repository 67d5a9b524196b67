/**
 * The row partitioner: rows [0, n) are split into t contiguous ranges, the
 * first n % t of them one row longer than the others.
 */
module Partition {

  /** The rows [startRow, endRow) one worker runs the left- and right-edge routines for. */
  datatype RowRange = RowRange(startRow: int, endRow: int)

  /** The rows range w receives: `rowsPerThread`, plus `extraRow` while w < `remainingRows`. */
  function Share(n: nat, t: nat, w: nat): nat
    requires 1 <= t
  {
    n / t + (if w < n % t then 1 else 0)
  }

  /** The value of the running `currentRow` once w ranges have been laid out. */
  function RangeStart(n: nat, t: nat, w: nat): nat
    requires 1 <= t
  {
    if w == 0 then 0 else RangeStart(n, t, w - 1) + Share(n, t, w - 1)
  }

  /** RangeStart in closed form: w full shares plus one extra row for each of the first n % t ranges. */
  lemma {:induction false} RangeStartClosedForm(n: nat, t: nat, w: nat)
    requires 1 <= t
    ensures RangeStart(n, t, w) == w * (n / t) + (if w < n % t then w else n % t)
  {
    if w > 0 {
      RangeStartClosedForm(n, t, w - 1);
      assert w * (n / t) == (w - 1) * (n / t) + n / t;
      assert Share(n, t, w - 1) == n / t + (if w - 1 < n % t then 1 else 0);
    }
  }

  /** The t ranges end exactly at row n. */
  lemma RangesEndAtN(n: nat, t: nat)
    requires 1 <= t
    ensures RangeStart(n, t, t) == n
  {
    RangeStartClosedForm(n, t, t);
  }

  /** Range w has n / t rows, plus one for the first n % t ranges; the last range has n / t. */
  lemma RangeSize(n: nat, t: nat, w: nat)
    requires 1 <= t && w < t
    ensures RangeStart(n, t, w + 1) - RangeStart(n, t, w) == n / t + (if w < n % t then 1 else 0)
    ensures w == t - 1 ==> RangeStart(n, t, w + 1) - RangeStart(n, t, w) == n / t
  {
  }

  /** Ranges are laid out in row order. */
  lemma {:induction false} RangeStartMonotone(n: nat, t: nat, w1: nat, w2: nat)
    requires 1 <= t && w1 <= w2
    ensures RangeStart(n, t, w1) <= RangeStart(n, t, w2)
  {
    if w1 < w2 {
      RangeStartMonotone(n, t, w1, w2 - 1);
    }
  }

  /** The range, searched from range w on, that holds row r. */
  function OwnerFrom(n: nat, t: nat, r: int, w: nat): (o: nat)
    requires 1 <= t && w < t
    requires RangeStart(n, t, w) <= r < n
    ensures w <= o < t && RangeStart(n, t, o) <= r < RangeStart(n, t, o + 1)
    decreases t - w
  {
    if r < RangeStart(n, t, w + 1) then w
    else
      RangesEndAtN(n, t);
      OwnerFrom(n, t, r, w + 1)
  }

  /** Cover: every row of [0, n) lies in some range. */
  lemma RangesCover(n: nat, t: nat, r: int)
    requires 1 <= t && 0 <= r < n
    ensures exists w :: 0 <= w < t && RangeStart(n, t, w) <= r < RangeStart(n, t, w + 1)
  {
    var w := OwnerFrom(n, t, r, 0);
  }

  /** Disjointness: no row lies in two different ranges. */
  lemma RangesDisjoint(n: nat, t: nat, w1: nat, w2: nat, r: int)
    requires 1 <= t && w1 < t && w2 < t
    requires RangeStart(n, t, w1) <= r < RangeStart(n, t, w1 + 1)
    requires RangeStart(n, t, w2) <= r < RangeStart(n, t, w2 + 1)
    ensures w1 == w2
  {
    if w1 < w2 {
      RangeStartMonotone(n, t, w1 + 1, w2);
    } else if w2 < w1 {
      RangeStartMonotone(n, t, w2 + 1, w1);
    }
  }

  /**
   * For a non-empty grid only the first range starts at row 0, so the
   * top-edge routines run in exactly one worker.
   */
  lemma OnlyFirstRangeStartsAtZero(n: nat, t: nat, w: nat)
    requires 1 <= t && 1 <= n && w < t
    ensures RangeStart(n, t, w) == 0 <==> w == 0
  {
    if w > 0 {
      RangeStartMonotone(n, t, 1, w);
      assert RangeStart(n, t, 1) >= 1 by {
        assert RangeStart(n, t, 1) == Share(n, t, 0);
        if n / t == 0 {
          assert n == t * (n / t) + n % t;
        }
      }
    }
  }

  /**
   * The partition loop: with one worker the single range [0, n); otherwise
   * t - 1 ranges laid out by a running `currentRow`, each `rowsPerThread`
   * rows plus one extra row while `i < remainingRows`, and a last range from
   * `currentRow` to n.
   */
  method PartitionRows(n: nat, t: int) returns (ranges: seq<RowRange>)
    requires 1 <= t
    ensures |ranges| == t
    ensures forall w :: 0 <= w < t ==>
      ranges[w] == RowRange(RangeStart(n, t, w), RangeStart(n, t, w + 1))
  {
    if t == 1 {
      ranges := [RowRange(0, n)];
    } else {
      var rowsPerThread := n / t;
      var remainingRows := n % t;
      var currentRow := 0;
      ranges := [];
      var i := 0;
      while i < t - 1
        invariant 0 <= i <= t - 1
        invariant |ranges| == i
        invariant currentRow == RangeStart(n, t, i)
        invariant forall w :: 0 <= w < i ==>
          ranges[w] == RowRange(RangeStart(n, t, w), RangeStart(n, t, w + 1))
      {
        var extraRow := if i < remainingRows then 1 else 0;
        ranges := ranges + [RowRange(currentRow, currentRow + rowsPerThread + extraRow)];
        currentRow := currentRow + rowsPerThread + extraRow;
        i := i + 1;
      }
      RangesEndAtN(n, t);
      ranges := ranges + [RowRange(currentRow, n)];
    }
  }
}
