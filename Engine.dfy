/**
 * The work driver: one worker per row range runs the left- and right-edge
 * routines for its rows, and the worker whose range starts at row 0 also runs
 * the two top-edge routines. The workers, the program's threads, run here
 * one after another. Two workers can write the same cell, but every write
 * only sets a cell to 1, so the order does not change the final grid.
 */
module Engine {
  import opened DiagonalSpec
  import opened Reference
  import opened Partition
  import opened Enumerator

  /** The cells one worker over rows [startRow, endRow) sets to 1. */
  ghost predicate WorkerMarks(input: array2<Byte>, s: nat, startRow: int, endRow: int, i: int, j: int)
    requires input.Length0 == input.Length1
    reads input
  {
    var n := input.Length0;
    FamilyMarks(input, s, ForwardFromLeft, startRow, endRow, i, j) ||
    FamilyMarks(input, s, BackwardFromRight, startRow, endRow, i, j) ||
    (startRow == 0 &&
      (FamilyMarks(input, s, ForwardFromTop, 1, n, i, j) ||
       FamilyMarks(input, s, BackwardFromTop, 0, n - 1, i, j)))
  }

  /** The cells set to 1 once the rows [0, rowsDone) and, if topDone, the top edge have been scanned. */
  ghost predicate PrefixMarks(input: array2<Byte>, s: nat, rowsDone: int, topDone: bool, i: int, j: int)
    requires input.Length0 == input.Length1
    reads input
  {
    var n := input.Length0;
    FamilyMarks(input, s, ForwardFromLeft, 0, rowsDone, i, j) ||
    FamilyMarks(input, s, BackwardFromRight, 0, rowsDone, i, j) ||
    (topDone &&
      (FamilyMarks(input, s, ForwardFromTop, 1, n, i, j) ||
       FamilyMarks(input, s, BackwardFromTop, 0, n - 1, i, j)))
  }

  /**
   * Running the worker for rows [a, b) after the rows [0, a) have been scanned
   * leaves the rows [0, b) and the top edge scanned, provided the top edge was
   * already done or this worker starts at row 0.
   */
  lemma PrefixThenWorker(input: array2<Byte>, s: nat, a: int, b: int, topDone: bool)
    requires input.Length0 == input.Length1
    requires 0 <= a <= b && (topDone || a == 0)
    ensures forall i, j ::
      PrefixMarks(input, s, b, true, i, j) <==>
      PrefixMarks(input, s, a, topDone, i, j) || WorkerMarks(input, s, a, b, i, j)
  {
  }

  /** A worker of the t-way partition whose range index is listed in ws sets cell (i, j) to 1. */
  ghost predicate ListedRangesMark(input: array2<Byte>, s: nat, t: nat, ws: seq<int>, i: int, j: int)
    requires input.Length0 == input.Length1 && 1 <= t
    reads input
  {
    exists w :: w in ws && 0 <= w < t &&
      WorkerMarks(input, s, RangeStart(input.Length0, t, w), RangeStart(input.Length0, t, w + 1), i, j)
  }

  /** Listing one more range adds exactly what that range's worker marks. */
  lemma ListedRangesAppend(input: array2<Byte>, s: nat, t: nat, ws: seq<int>, w: int)
    requires input.Length0 == input.Length1 && 1 <= t && 0 <= w < t
    ensures forall i, j ::
      ListedRangesMark(input, s, t, ws + [w], i, j) <==>
      ListedRangesMark(input, s, t, ws, i, j) ||
      WorkerMarks(input, s, RangeStart(input.Length0, t, w), RangeStart(input.Length0, t, w + 1), i, j)
  {
  }

  /** A worker of one of the first m ranges of the t-way partition sets cell (i, j) to 1. */
  ghost predicate FirstRangesMark(input: array2<Byte>, s: nat, t: nat, m: int, i: int, j: int)
    requires input.Length0 == input.Length1 && 1 <= t
    reads input
  {
    exists w :: 0 <= w < m &&
      WorkerMarks(input, s, RangeStart(input.Length0, t, w), RangeStart(input.Length0, t, w + 1), i, j)
  }

  /** The workers of the first m ranges together mark what scanning rows [0, RangeStart(m)) and the top edge marks. */
  lemma {:induction false} FirstRangesArePrefix(input: array2<Byte>, s: nat, t: nat, m: nat, i: int, j: int)
    requires input.Length0 == input.Length1 && 1 <= m <= t
    ensures FirstRangesMark(input, s, t, m, i, j) <==>
            PrefixMarks(input, s, RangeStart(input.Length0, t, m), true, i, j)
  {
    var n := input.Length0;
    PrefixThenWorker(input, s, RangeStart(n, t, m - 1), RangeStart(n, t, m), m > 1);
    if m > 1 {
      FirstRangesArePrefix(input, s, t, m - 1, i, j);
    }
  }

  /** A schedule that lists every range of the partition, and only those, marks exactly the cells on a matching run. */
  lemma EverySchedulePrefixMatches(input: array2<Byte>, s: nat, t: nat, order: seq<int>)
    requires input.Length0 == input.Length1 && 1 <= t
    requires forall k :: 0 <= k < |order| ==> 0 <= order[k] < t
    requires forall w :: 0 <= w < t ==> w in order
    ensures forall i, j :: 0 <= i < input.Length0 && 0 <= j < input.Length0 ==>
      (ListedRangesMark(input, s, t, order, i, j) <==> OnMatchingRun(input, s, i, j))
  {
    var n := input.Length0;
    RangesEndAtN(n, t);
    forall i, j | 0 <= i < n && 0 <= j < n
      ensures ListedRangesMark(input, s, t, order, i, j) <==> OnMatchingRun(input, s, i, j)
    {
      assert ListedRangesMark(input, s, t, order, i, j) <==> FirstRangesMark(input, s, t, t, i, j);
      FirstRangesArePrefix(input, s, t, t, i, j);
      AllFamiliesMatchReference(input, s, i, j);
    }
  }

  /**
   * One worker: the left- and right-edge routines for every row of its range,
   * then, only when its range starts at row 0, the forward top-edge routine for
   * columns 1 .. n - 1 and the backward one for columns 0 .. n - 2.
   */
  method DiagonalSumsThread(input: array2<Byte>, s: nat, output: array2<Byte>, startRow: int, endRow: int)
    requires SameSquare(input, output) && input != output
    requires 0 <= startRow
    modifies output
    ensures forall i, j :: 0 <= i < output.Length0 && 0 <= j < output.Length1 ==>
      output[i, j] == if WorkerMarks(input, s, startRow, endRow, i, j) then 1 else old(output[i, j])
  {
    var n := input.Length0;
    var i := startRow;
    while i < endRow
      invariant startRow <= i && (i <= endRow || i == startRow)
      invariant forall a, b :: 0 <= a < n && 0 <= b < n ==>
        output[a, b] == if FamilyMarks(input, s, ForwardFromLeft, startRow, i, a, b) ||
                           FamilyMarks(input, s, BackwardFromRight, startRow, i, a, b)
                        then 1 else old(output[a, b])
    {
      label Row:
      ProcessForwardDiagonalFromLeftEdge(input, s, output, i);
      ProcessBackwardDiagonalFromRightEdge(input, s, output, i);
      FamilyMarksExtend(input, s, ForwardFromLeft, startRow, i);
      FamilyMarksExtend(input, s, BackwardFromRight, startRow, i);
      assert forall a, b :: 0 <= a < n && 0 <= b < n ==>
        output[a, b] == if MarkedBy(input, s, Job(ForwardFromLeft, i), a, b) ||
                           MarkedBy(input, s, Job(BackwardFromRight, i), a, b)
                        then 1 else old@Row(output[a, b]);
      i := i + 1;
    }

    if startRow == 0 {
      var j := 1;
      while j < n
        invariant 1 <= j && (j <= n || j == 1)
        invariant forall a, b :: 0 <= a < n && 0 <= b < n ==>
          output[a, b] == if FamilyMarks(input, s, ForwardFromLeft, startRow, endRow, a, b) ||
                             FamilyMarks(input, s, BackwardFromRight, startRow, endRow, a, b) ||
                             FamilyMarks(input, s, ForwardFromTop, 1, j, a, b)
                          then 1 else old(output[a, b])
      {
        ProcessForwardDiagonalFromTopEdge(input, s, output, j);
        FamilyMarksExtend(input, s, ForwardFromTop, 1, j);
        j := j + 1;
      }

      j := 0;
      while j < n - 1
        invariant 0 <= j && (j <= n - 1 || j == 0)
        invariant forall a, b :: 0 <= a < n && 0 <= b < n ==>
          output[a, b] == if FamilyMarks(input, s, ForwardFromLeft, startRow, endRow, a, b) ||
                             FamilyMarks(input, s, BackwardFromRight, startRow, endRow, a, b) ||
                             FamilyMarks(input, s, ForwardFromTop, 1, n, a, b) ||
                             FamilyMarks(input, s, BackwardFromTop, 0, j, a, b)
                          then 1 else old(output[a, b])
      {
        ProcessBackwardDiagonalFromTopEdge(input, s, output, j);
        FamilyMarksExtend(input, s, BackwardFromTop, 0, j);
        j := j + 1;
      }
    }
  }

  /** A fresh n-by-n output grid with every cell 0. */
  method AllocateZeroGrid(n: nat) returns (g: array2<Byte>)
    ensures fresh(g) && g.Length0 == n && g.Length1 == n
    ensures forall i, j :: 0 <= i < n && 0 <= j < n ==> g[i, j] == 0
  {
    g := new Byte[n, n];
    var i := 0;
    while i < n
      invariant 0 <= i <= n
      invariant forall a, b :: 0 <= a < i && 0 <= b < n ==> g[a, b] == 0
    {
      var j := 0;
      while j < n
        invariant 0 <= j <= n
        invariant forall a, b :: 0 <= a < i && 0 <= b < n ==> g[a, b] == 0
        invariant forall b :: 0 <= b < j ==> g[i, b] == 0
      {
        g[i, j] := 0;
        j := j + 1;
      }
      i := i + 1;
    }
  }

  /**
   * The engine: a zeroed output grid, the row partition for t workers, and
   * every worker run over it. A cell of the result is 1 exactly when it lies
   * on a matching run of one of its two diagonals, and 0 otherwise; the
   * result does not depend on t.
   */
  method DiagonalSums(input: array2<Byte>, s: nat, t: int) returns (output: array2<Byte>)
    requires input.Length0 == input.Length1
    requires 1 <= t
    ensures fresh(output) && SameSquare(input, output)
    ensures forall i, j :: 0 <= i < input.Length0 && 0 <= j < input.Length0 ==>
      output[i, j] == if OnMatchingRun(input, s, i, j) then 1 else 0
  {
    var n := input.Length0;
    output := AllocateZeroGrid(n);
    var ranges := PartitionRows(n, t);
    var w := 0;
    while w < t
      invariant 0 <= w <= t
      invariant forall i, j :: 0 <= i < n && 0 <= j < n ==>
        output[i, j] == if PrefixMarks(input, s, RangeStart(n, t, w), w > 0, i, j) then 1 else 0
    {
      assert ranges[w] == RowRange(RangeStart(n, t, w), RangeStart(n, t, w + 1));
      DiagonalSumsThread(input, s, output, ranges[w].startRow, ranges[w].endRow);
      PrefixThenWorker(input, s, RangeStart(n, t, w), RangeStart(n, t, w + 1), w > 0);
      w := w + 1;
    }
    RangesEndAtN(n, t);
    forall i, j | 0 <= i < n && 0 <= j < n
      ensures PrefixMarks(input, s, n, true, i, j) <==> OnMatchingRun(input, s, i, j)
    {
      AllFamiliesMatchReference(input, s, i, j);
    }
  }

  /**
   * The engine with its workers run in any schedule `order` that names only
   * ranges of the partition and every one of them at least once: the result
   * is the same grid as DiagonalSums gives, so neither the order in which the
   * threads finish nor the thread count changes the output.
   */
  method DiagonalSumsInOrder(input: array2<Byte>, s: nat, t: int, order: seq<int>) returns (output: array2<Byte>)
    requires input.Length0 == input.Length1
    requires 1 <= t
    requires forall k :: 0 <= k < |order| ==> 0 <= order[k] < t
    requires forall w :: 0 <= w < t ==> w in order
    ensures fresh(output) && SameSquare(input, output)
    ensures forall i, j :: 0 <= i < input.Length0 && 0 <= j < input.Length0 ==>
      output[i, j] == if OnMatchingRun(input, s, i, j) then 1 else 0
  {
    var n := input.Length0;
    output := AllocateZeroGrid(n);
    var ranges := PartitionRows(n, t);
    var k := 0;
    while k < |order|
      invariant 0 <= k <= |order|
      invariant forall i, j :: 0 <= i < n && 0 <= j < n ==>
        output[i, j] == if ListedRangesMark(input, s, t, order[..k], i, j) then 1 else 0
    {
      var w := order[k];
      assert ranges[w] == RowRange(RangeStart(n, t, w), RangeStart(n, t, w + 1));
      assert order[..k + 1] == order[..k] + [w];
      ListedRangesAppend(input, s, t, order[..k], w);
      DiagonalSumsThread(input, s, output, ranges[w].startRow, ranges[w].endRow);
      k := k + 1;
    }
    assert order[..|order|] == order;
    EverySchedulePrefixMatches(input, s, t, order);
  }

  /**
   * Two workers can set the same cell. With n = 4 and t = 2 the ranges are
   * [0, 2) and [2, 4); on a grid of ones with a 2 at (2, 3) and s = 3, the
   * forward left-edge run from row 1 of length 3 and the backward right-edge
   * run from row 2 of length 2 both reach (3, 2), so each worker writes it.
   */
  method OverlappingWorkerWrites() returns (g: array2<Byte>)
    ensures g.Length0 == 4 && g.Length1 == 4
    ensures RangeStart(4, 2, 1) == 2 && RangeStart(4, 2, 2) == 4
    ensures WorkerMarks(g, 3, 0, 2, 3, 2) && WorkerMarks(g, 3, 2, 4, 3, 2)
  {
    g := new Byte[4, 4]((i, j) => if i == 2 && j == 3 then 2 else 1);
    var forward := Job(ForwardFromLeft, 1);
    assert RunSum(g, forward, 1) == 1;
    assert RunSum(g, forward, 2) == 2;
    assert RunSum(g, forward, 3) == 3;
    MarkedByIsSomeRun(g, 3, forward, 3, 2);
    var backward := Job(BackwardFromRight, 2);
    assert RunSum(g, backward, 1) == 2;
    assert RunSum(g, backward, 2) == 3;
    MarkedByIsSomeRun(g, 3, backward, 3, 2);
  }
}
