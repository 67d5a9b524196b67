/**
 * The four diagonal routines. Each tries every length from 2 up to the edge
 * of the grid, recomputes the sum of the first `len` cells of its diagonal
 * from scratch, and on a match sets those cells of `output` to 1.
 */
module Enumerator {
  import opened DiagonalSpec

  /** Forward (down-right) diagonals starting at (startRow, 0). */
  method ProcessForwardDiagonalFromLeftEdge(input: array2<Byte>, s: nat, output: array2<Byte>, startRow: int)
    requires SameSquare(input, output) && input != output
    requires 0 <= startRow
    modifies output
    ensures forall i, j :: 0 <= i < output.Length0 && 0 <= j < output.Length1 ==>
      output[i, j] == if MarkedBy(input, s, Job(ForwardFromLeft, startRow), i, j) then 1 else old(output[i, j])
  {
    var n := input.Length0;
    ghost var job := Job(ForwardFromLeft, startRow);
    var len := 2;
    while len <= n - startRow
      invariant 2 <= len && (len <= MaxLen(job, n) + 1 || len == 2)
      invariant forall i, j :: 0 <= i < n && 0 <= j < n ==>
        output[i, j] == if MarkedBelow(input, s, job, len, i, j) then 1 else old(output[i, j])
    {
      var sum := 0;
      var k := 0;
      while k < len
        invariant 0 <= k <= len
        invariant sum == RunSum(input, job, k)
      {
        sum := sum + input[startRow + k, k];
        k := k + 1;
      }
      if sum == s {
        label Marking:
        k := 0;
        while k < len
          invariant 0 <= k <= len
          invariant forall i, j :: 0 <= i < n && 0 <= j < n ==>
            output[i, j] == if AmongFirst(job, n, k, i, j) then 1 else old@Marking(output[i, j])
        {
          output[startRow + k, k] := 1;
          k := k + 1;
        }
      }
      len := len + 1;
    }
  }

  /** Backward (down-left) diagonals starting at (startRow, n - 1). */
  method ProcessBackwardDiagonalFromRightEdge(input: array2<Byte>, s: nat, output: array2<Byte>, startRow: int)
    requires SameSquare(input, output) && input != output
    requires 0 <= startRow
    modifies output
    ensures forall i, j :: 0 <= i < output.Length0 && 0 <= j < output.Length1 ==>
      output[i, j] == if MarkedBy(input, s, Job(BackwardFromRight, startRow), i, j) then 1 else old(output[i, j])
  {
    var n := input.Length0;
    ghost var job := Job(BackwardFromRight, startRow);
    var len := 2;
    while len <= n - startRow
      invariant 2 <= len && (len <= MaxLen(job, n) + 1 || len == 2)
      invariant forall i, j :: 0 <= i < n && 0 <= j < n ==>
        output[i, j] == if MarkedBelow(input, s, job, len, i, j) then 1 else old(output[i, j])
    {
      var sum := 0;
      var k := 0;
      while k < len
        invariant 0 <= k <= len
        invariant sum == RunSum(input, job, k)
      {
        sum := sum + input[startRow + k, n - 1 - k];
        k := k + 1;
      }
      if sum == s {
        label Marking:
        k := 0;
        while k < len
          invariant 0 <= k <= len
          invariant forall i, j :: 0 <= i < n && 0 <= j < n ==>
            output[i, j] == if AmongFirst(job, n, k, i, j) then 1 else old@Marking(output[i, j])
        {
          output[startRow + k, n - 1 - k] := 1;
          k := k + 1;
        }
      }
      len := len + 1;
    }
  }

  /** Forward (down-right) diagonals starting at (0, startCol). */
  method ProcessForwardDiagonalFromTopEdge(input: array2<Byte>, s: nat, output: array2<Byte>, startCol: int)
    requires SameSquare(input, output) && input != output
    requires 0 <= startCol
    modifies output
    ensures forall i, j :: 0 <= i < output.Length0 && 0 <= j < output.Length1 ==>
      output[i, j] == if MarkedBy(input, s, Job(ForwardFromTop, startCol), i, j) then 1 else old(output[i, j])
  {
    var n := input.Length0;
    ghost var job := Job(ForwardFromTop, startCol);
    var len := 2;
    while len <= n - startCol
      invariant 2 <= len && (len <= MaxLen(job, n) + 1 || len == 2)
      invariant forall i, j :: 0 <= i < n && 0 <= j < n ==>
        output[i, j] == if MarkedBelow(input, s, job, len, i, j) then 1 else old(output[i, j])
    {
      var sum := 0;
      var k := 0;
      while k < len
        invariant 0 <= k <= len
        invariant sum == RunSum(input, job, k)
      {
        sum := sum + input[k, startCol + k];
        k := k + 1;
      }
      if sum == s {
        label Marking:
        k := 0;
        while k < len
          invariant 0 <= k <= len
          invariant forall i, j :: 0 <= i < n && 0 <= j < n ==>
            output[i, j] == if AmongFirst(job, n, k, i, j) then 1 else old@Marking(output[i, j])
        {
          output[k, startCol + k] := 1;
          k := k + 1;
        }
      }
      len := len + 1;
    }
  }

  /** Backward (down-left) diagonals starting at (0, startCol). */
  method ProcessBackwardDiagonalFromTopEdge(input: array2<Byte>, s: nat, output: array2<Byte>, startCol: int)
    requires SameSquare(input, output) && input != output
    requires startCol < input.Length0
    modifies output
    ensures forall i, j :: 0 <= i < output.Length0 && 0 <= j < output.Length1 ==>
      output[i, j] == if MarkedBy(input, s, Job(BackwardFromTop, startCol), i, j) then 1 else old(output[i, j])
  {
    ghost var n := input.Length0;
    ghost var job := Job(BackwardFromTop, startCol);
    var len := 2;
    while len <= startCol + 1
      invariant 2 <= len && (len <= MaxLen(job, n) + 1 || len == 2)
      invariant forall i, j :: 0 <= i < n && 0 <= j < n ==>
        output[i, j] == if MarkedBelow(input, s, job, len, i, j) then 1 else old(output[i, j])
    {
      var sum := 0;
      var k := 0;
      while k < len
        invariant 0 <= k <= len
        invariant sum == RunSum(input, job, k)
      {
        sum := sum + input[k, startCol - k];
        k := k + 1;
      }
      if sum == s {
        label Marking:
        k := 0;
        while k < len
          invariant 0 <= k <= len
          invariant forall i, j :: 0 <= i < n && 0 <= j < n ==>
            output[i, j] == if AmongFirst(job, n, k, i, j) then 1 else old@Marking(output[i, j])
        {
          output[k, startCol - k] := 1;
          k := k + 1;
        }
      }
      len := len + 1;
    }
  }
}
