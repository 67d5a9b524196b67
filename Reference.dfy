/**
 * An independent, geometric description of the cells the engine marks.
 *
 * Through every cell (i, j) of an n-by-n grid pass exactly one down-right and
 * one down-left diagonal. Each is scanned from its upper end: a cell is marked
 * when some prefix of length at least 2 of one of its two diagonals, starting
 * at that upper end and reaching the cell, sums to the target.
 */
module Reference {
  import opened DiagonalSpec

  datatype Direction = DownRight | DownLeft

  /** Column of the k-th cell of a diagonal whose upper end is in column c0. */
  function StepCol(d: Direction, c0: int, k: int): int
  {
    match d
    case DownRight => c0 + k
    case DownLeft => c0 - k
  }

  /** The `len` cells from (r0, c0) in direction d all lie in an n-by-n grid. */
  predicate Fits(n: int, d: Direction, r0: int, c0: int, len: int)
  {
    0 <= len && 0 <= r0 && r0 + len <= n &&
    match d
    case DownRight => 0 <= c0 && c0 + len <= n
    case DownLeft => c0 < n && 0 <= c0 - len + 1
  }

  /** Sum of the `len` cells from (r0, c0) in direction d. */
  ghost function DiagSum(input: array2<Byte>, d: Direction, r0: int, c0: int, len: int): nat
    requires input.Length0 == input.Length1 && Fits(input.Length0, d, r0, c0, len)
    reads input
    decreases len
  {
    if len == 0 then 0
    else DiagSum(input, d, r0, c0, len - 1) + input[r0 + len - 1, StepCol(d, c0, len - 1)]
  }

  /** Number of steps from the upper end of the direction-d diagonal through (i, j) down to (i, j). */
  function StepsFromUpperEnd(d: Direction, n: int, i: int, j: int): int
  {
    match d
    case DownRight => if i <= j then i else j
    case DownLeft => if i <= n - 1 - j then i else n - 1 - j
  }

  /**
   * The upper end of the direction-d diagonal through (i, j): a cell on the
   * top row or on the edge column the diagonal leaves from, from which (i, j)
   * is StepsFromUpperEnd steps down.
   */
  function UpperEnd(d: Direction, n: int, i: int, j: int): (e: (int, int))
    requires 0 <= i < n && 0 <= j < n
    ensures 0 <= e.0 < n && 0 <= e.1 < n
    ensures e.0 == 0 || e.1 == (if d == DownRight then 0 else n - 1)
    ensures e.0 + StepsFromUpperEnd(d, n, i, j) == i && StepCol(d, e.1, StepsFromUpperEnd(d, n, i, j)) == j
  {
    var m := StepsFromUpperEnd(d, n, i, j);
    (i - m, match d case DownRight => j - m case DownLeft => j + m)
  }

  /**
   * Some prefix of length >= 2 of the direction-d diagonal through (i, j),
   * starting at its upper end, reaches (i, j) and sums to s.
   */
  ghost predicate RunThrough(input: array2<Byte>, s: nat, d: Direction, i: int, j: int)
    requires input.Length0 == input.Length1
    requires 0 <= i < input.Length0 && 0 <= j < input.Length0
    reads input
  {
    var n := input.Length0;
    var e := UpperEnd(d, n, i, j);
    exists len :: StepsFromUpperEnd(d, n, i, j) < len && 2 <= len && Fits(n, d, e.0, e.1, len) &&
                  DiagSum(input, d, e.0, e.1, len) == s
  }

  /** Cell (i, j) lies on a matching run of one of its two diagonals. */
  ghost predicate OnMatchingRun(input: array2<Byte>, s: nat, i: int, j: int)
    requires input.Length0 == input.Length1
    requires 0 <= i < input.Length0 && 0 <= j < input.Length0
    reads input
  {
    RunThrough(input, s, DownRight, i, j) || RunThrough(input, s, DownLeft, i, j)
  }

  /** Direction of a family's diagonals. */
  function Dir(f: Family): Direction
  {
    match f
    case ForwardFromLeft => DownRight
    case ForwardFromTop => DownRight
    case BackwardFromRight => DownLeft
    case BackwardFromTop => DownLeft
  }

  /** Upper-end cell of a job's diagonal. */
  function Anchor(job: Job, n: int): (int, int)
  {
    match job.family
    case ForwardFromLeft => (job.start, 0)
    case BackwardFromRight => (job.start, n - 1)
    case ForwardFromTop => (0, job.start)
    case BackwardFromTop => (0, job.start)
  }

  /** The routine's recomputed sum is the sum of the first `len` cells from the job's anchor. */
  lemma {:induction false} RunSumIsDiagSum(input: array2<Byte>, job: Job, len: int)
    requires input.Length0 == input.Length1
    requires ValidStart(job, input.Length0) && 0 <= len <= MaxLen(job, input.Length0)
    ensures Fits(input.Length0, Dir(job.family), Anchor(job, input.Length0).0, Anchor(job, input.Length0).1, len)
    ensures RunSum(input, job, len) ==
            DiagSum(input, Dir(job.family), Anchor(job, input.Length0).0, Anchor(job, input.Length0).1, len)
  {
    if len > 0 {
      RunSumIsDiagSum(input, job, len - 1);
    }
  }

  /** The run sums of a job agree with DiagSum for every length it tries. */
  lemma AllRunSumsAreDiagSums(input: array2<Byte>, job: Job)
    requires input.Length0 == input.Length1 && ValidStart(job, input.Length0)
    ensures forall len :: 0 <= len <= MaxLen(job, input.Length0) ==>
      Fits(input.Length0, Dir(job.family), Anchor(job, input.Length0).0, Anchor(job, input.Length0).1, len) &&
      RunSum(input, job, len) ==
      DiagSum(input, Dir(job.family), Anchor(job, input.Length0).0, Anchor(job, input.Length0).1, len)
  {
    forall len | 0 <= len <= MaxLen(job, input.Length0)
      ensures Fits(input.Length0, Dir(job.family), Anchor(job, input.Length0).0, Anchor(job, input.Length0).1, len)
      ensures RunSum(input, job, len) ==
              DiagSum(input, Dir(job.family), Anchor(job, input.Length0).0, Anchor(job, input.Length0).1, len)
    {
      RunSumIsDiagSum(input, job, len);
    }
  }

  /**
   * A job whose diagonal passes through (i, j) and starts at the upper end of
   * the diagonal through (i, j) marks (i, j) exactly when a matching prefix
   * reaches it.
   */
  lemma MarkedByMatchesRunThrough(input: array2<Byte>, s: nat, job: Job, i: int, j: int)
    requires input.Length0 == input.Length1
    requires 0 <= i < input.Length0 && 0 <= j < input.Length0
    requires ValidStart(job, input.Length0)
    requires UpperEnd(Dir(job.family), input.Length0, i, j) == Anchor(job, input.Length0)
    requires forall len :: AmongFirst(job, input.Length0, len, i, j) <==>
                           StepsFromUpperEnd(Dir(job.family), input.Length0, i, j) < len
    ensures MarkedBy(input, s, job, i, j) <==> RunThrough(input, s, Dir(job.family), i, j)
  {
    var n := input.Length0;
    var d := Dir(job.family);
    var e := Anchor(job, n);
    var m := StepsFromUpperEnd(d, n, i, j);
    AllRunSumsAreDiagSums(input, job);
    MarkedByIsSomeRun(input, s, job, i, j);
    if MarkedBy(input, s, job, i, j) {
      var len :| 2 <= len <= MaxLen(job, n) && AmongFirst(job, n, len, i, j) && RunSum(input, job, len) == s;
      assert m < len && Fits(n, d, e.0, e.1, len) && DiagSum(input, d, e.0, e.1, len) == s;
    }
    if RunThrough(input, s, d, i, j) {
      var len :| m < len && 2 <= len && Fits(n, d, e.0, e.1, len) && DiagSum(input, d, e.0, e.1, len) == s;
      assert len <= MaxLen(job, n);
      assert AmongFirst(job, n, len, i, j) && RunSum(input, job, len) == s;
    }
  }

  /**
   * The left-edge and top-edge forward families together mark exactly the
   * cells on a matching prefix of their down-right diagonal: the left edge
   * takes the diagonals whose upper end is in column 0, the top edge (from
   * column 1) the rest, and no diagonal belongs to both.
   */
  lemma ForwardFamiliesMatchReference(input: array2<Byte>, s: nat, i: int, j: int)
    requires input.Length0 == input.Length1
    requires 0 <= i < input.Length0 && 0 <= j < input.Length0
    ensures FamilyMarks(input, s, ForwardFromLeft, 0, input.Length0, i, j) ||
            FamilyMarks(input, s, ForwardFromTop, 1, input.Length0, i, j)
            <==> RunThrough(input, s, DownRight, i, j)
    ensures !(FamilyMarks(input, s, ForwardFromLeft, 0, input.Length0, i, j) &&
              FamilyMarks(input, s, ForwardFromTop, 1, input.Length0, i, j))
  {
    var n := input.Length0;
    var job := if j <= i then Job(ForwardFromLeft, i - j) else Job(ForwardFromTop, j - i);
    MarkedByMatchesRunThrough(input, s, job, i, j);
    if FamilyMarks(input, s, ForwardFromLeft, 0, n, i, j) {
      MarkedByIsSomeRun(input, s, Job(ForwardFromLeft, i - j), i, j);
    }
  }

  /**
   * The right-edge and top-edge backward families together mark exactly the
   * cells on a matching prefix of their down-left diagonal: the right edge
   * takes the diagonals whose upper end is in column n - 1, the top edge (up
   * to column n - 2) the rest, and no diagonal belongs to both.
   */
  lemma BackwardFamiliesMatchReference(input: array2<Byte>, s: nat, i: int, j: int)
    requires input.Length0 == input.Length1
    requires 0 <= i < input.Length0 && 0 <= j < input.Length0
    ensures FamilyMarks(input, s, BackwardFromRight, 0, input.Length0, i, j) ||
            FamilyMarks(input, s, BackwardFromTop, 0, input.Length0 - 1, i, j)
            <==> RunThrough(input, s, DownLeft, i, j)
    ensures !(FamilyMarks(input, s, BackwardFromRight, 0, input.Length0, i, j) &&
              FamilyMarks(input, s, BackwardFromTop, 0, input.Length0 - 1, i, j))
  {
    var n := input.Length0;
    var job := if n - 1 - j <= i then Job(BackwardFromRight, i - (n - 1 - j)) else Job(BackwardFromTop, i + j);
    MarkedByMatchesRunThrough(input, s, job, i, j);
    if FamilyMarks(input, s, BackwardFromRight, 0, n, i, j) {
      MarkedByIsSomeRun(input, s, Job(BackwardFromRight, i - (n - 1 - j)), i, j);
    }
  }

  /** The four families over the engine's start ranges mark exactly the cells on a matching run. */
  lemma AllFamiliesMatchReference(input: array2<Byte>, s: nat, i: int, j: int)
    requires input.Length0 == input.Length1
    requires 0 <= i < input.Length0 && 0 <= j < input.Length0
    ensures AllFamiliesMark(input, s, i, j) <==> OnMatchingRun(input, s, i, j)
  {
    ForwardFamiliesMatchReference(input, s, i, j);
    BackwardFamiliesMatchReference(input, s, i, j);
  }

  /** In a 1-by-1 grid no run of length 2 exists, so the single cell is never on a matching run. */
  lemma SingleCellGridHasNoRun(input: array2<Byte>, s: nat)
    requires input.Length0 == input.Length1 == 1
    ensures !OnMatchingRun(input, s, 0, 0)
  {
  }
}
