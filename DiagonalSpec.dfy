/**
 * Specification functions for the diagonal enumerator: which cells one call
 * of a diagonal routine visits, the sums it computes, and which cells it marks.
 */
module DiagonalSpec {

  /** A grid cell holds an `unsigned char`. */
  type Byte = x: int | 0 <= x < 256

  /** An input grid and an output grid of the same square shape. */
  predicate SameSquare(input: array2<Byte>, output: array2<Byte>)
  {
    input.Length0 == input.Length1 &&
    output.Length0 == input.Length0 && output.Length1 == input.Length1
  }

  /** The four diagonal families, named by the edge their runs start from. */
  datatype Family = ForwardFromLeft | BackwardFromRight | ForwardFromTop | BackwardFromTop

  /**
   * One call of a diagonal routine: its family, and its start row (left and
   * right edge) or start column (top edge).
   */
  datatype Job = Job(family: Family, start: int)

  /** The start values for which a routine never indexes outside an n-by-n grid. */
  predicate ValidStart(job: Job, n: int)
  {
    match job.family
    case BackwardFromTop => job.start < n
    case _ => 0 <= job.start
  }

  /** The largest `len` the routine's outer loop tries. */
  function MaxLen(job: Job, n: int): int
  {
    match job.family
    case ForwardFromLeft => n - job.start
    case BackwardFromRight => n - job.start
    case ForwardFromTop => n - job.start
    case BackwardFromTop => job.start + 1
  }

  /** The k-th cell (row, column) of the job's diagonal; it always lies in the grid. */
  function Cell(job: Job, n: int, k: int): (c: (int, int))
    requires ValidStart(job, n) && 0 <= k < MaxLen(job, n)
    ensures 0 <= c.0 < n && 0 <= c.1 < n
  {
    match job.family
    case ForwardFromLeft => (job.start + k, k)
    case BackwardFromRight => (job.start + k, n - 1 - k)
    case ForwardFromTop => (k, job.start + k)
    case BackwardFromTop => (k, job.start - k)
  }

  /** Distinct positions on one diagonal are distinct cells, so a run never visits a cell twice. */
  lemma CellInjective(job: Job, n: int, k1: int, k2: int)
    requires ValidStart(job, n) && 0 <= k1 < MaxLen(job, n) && 0 <= k2 < MaxLen(job, n)
    requires Cell(job, n, k1) == Cell(job, n, k2)
    ensures k1 == k2
  {
  }

  /**
   * Cell (i, j) is one of the first k cells of the job's diagonal, written
   * with the index expressions of the routine's marking loop.
   */
  predicate AmongFirst(job: Job, n: int, k: int, i: int, j: int)
  {
    match job.family
    case ForwardFromLeft => 0 <= j < k && i == job.start + j
    case BackwardFromRight => 0 <= n - 1 - j < k && i == job.start + (n - 1 - j)
    case ForwardFromTop => 0 <= i < k && j == job.start + i
    case BackwardFromTop => 0 <= i < k && j == job.start - i
  }

  /** AmongFirst holds exactly of the cells Cell(job, n, 0) .. Cell(job, n, k - 1). */
  lemma AmongFirstIsFirstCells(job: Job, n: int, k: int, i: int, j: int)
    requires ValidStart(job, n) && 0 <= k <= MaxLen(job, n)
    ensures AmongFirst(job, n, k, i, j) <==> exists k' :: 0 <= k' < k && Cell(job, n, k') == (i, j)
  {
    if AmongFirst(job, n, k, i, j) {
      var k' := match job.family
        case ForwardFromLeft => j
        case BackwardFromRight => n - 1 - j
        case ForwardFromTop => i
        case BackwardFromTop => i;
      assert Cell(job, n, k') == (i, j);
    }
  }

  /** The start value of the one job of family `f` whose diagonal can pass through (i, j). */
  function StartThrough(f: Family, n: int, i: int, j: int): (st: int)
    ensures ValidStart(Job(f, st), n) && AmongFirst(Job(f, st), n, MaxLen(Job(f, st), n), i, j) <==>
            0 <= i < n && 0 <= j < n &&
            match f
            case ForwardFromLeft => j <= i
            case BackwardFromRight => n - 1 - j <= i
            case ForwardFromTop => i <= j
            case BackwardFromTop => i + j < n
  {
    match f
    case ForwardFromLeft => i - j
    case BackwardFromRight => i - (n - 1 - j)
    case ForwardFromTop => j - i
    case BackwardFromTop => i + j
  }

  /** The sum of the first `len` cells of the job's diagonal, as the routine's inner loop computes it. */
  ghost function RunSum(input: array2<Byte>, job: Job, len: int): (sum: nat)
    requires input.Length0 == input.Length1
    requires ValidStart(job, input.Length0) && 0 <= len <= MaxLen(job, input.Length0)
    reads input
    ensures sum <= 255 * len
    decreases len
  {
    if len == 0 then 0
    else
      var c := Cell(job, input.Length0, len - 1);
      RunSum(input, job, len - 1) + input[c.0, c.1]
  }

  /**
   * Cell (i, j) lies on one of the job's runs of length 2 .. hi - 1 (and at
   * most MaxLen) whose sum is s: what the routine has marked once its outer
   * loop has tried every length below hi.
   */
  ghost predicate MarkedBelow(input: array2<Byte>, s: nat, job: Job, hi: int, i: int, j: int)
    requires input.Length0 == input.Length1 && ValidStart(job, input.Length0)
    reads input
    decreases hi
  {
    if hi <= 2 then false
    else
      MarkedBelow(input, s, job, hi - 1, i, j) ||
      (hi - 1 <= MaxLen(job, input.Length0) && AmongFirst(job, input.Length0, hi - 1, i, j) &&
       RunSum(input, job, hi - 1) == s)
  }

  /** MarkedBelow holds exactly when some tried length gives a matching run through the cell. */
  lemma {:induction false} MarkedBelowIsSomeRun(input: array2<Byte>, s: nat, job: Job, hi: int, i: int, j: int)
    requires input.Length0 == input.Length1 && ValidStart(job, input.Length0)
    ensures MarkedBelow(input, s, job, hi, i, j) <==>
            exists len :: 2 <= len < hi && len <= MaxLen(job, input.Length0) &&
                          AmongFirst(job, input.Length0, len, i, j) && RunSum(input, job, len) == s
    decreases hi
  {
    if hi > 2 {
      MarkedBelowIsSomeRun(input, s, job, hi - 1, i, j);
    }
  }

  /**
   * Cell (i, j) lies on a run of the job's diagonal, of length 2 up to MaxLen,
   * whose sum equals s: exactly the cells one call of the routine sets to 1.
   */
  ghost predicate MarkedBy(input: array2<Byte>, s: nat, job: Job, i: int, j: int)
    requires input.Length0 == input.Length1
    reads input
  {
    ValidStart(job, input.Length0) && MarkedBelow(input, s, job, MaxLen(job, input.Length0) + 1, i, j)
  }

  /**
   * One call of a routine marks cell (i, j) iff its start is valid and some
   * length 2 <= len <= MaxLen has the cell among its first len cells and a
   * recomputed sum equal to s.
   */
  lemma MarkedByIsSomeRun(input: array2<Byte>, s: nat, job: Job, i: int, j: int)
    requires input.Length0 == input.Length1
    ensures MarkedBy(input, s, job, i, j) <==>
            ValidStart(job, input.Length0) &&
            exists len :: 2 <= len <= MaxLen(job, input.Length0) &&
                          AmongFirst(job, input.Length0, len, i, j) && RunSum(input, job, len) == s
  {
    if ValidStart(job, input.Length0) {
      MarkedBelowIsSomeRun(input, s, job, MaxLen(job, input.Length0) + 1, i, j);
    }
  }

  /** Some job of family f with start in [lo, hi) marks cell (i, j). */
  ghost predicate FamilyMarks(input: array2<Byte>, s: nat, f: Family, lo: int, hi: int, i: int, j: int)
    requires input.Length0 == input.Length1
    reads input
  {
    var st := StartThrough(f, input.Length0, i, j);
    lo <= st < hi && MarkedBy(input, s, Job(f, st), i, j)
  }

  /** What all four families, over the starts the engine uses, mark together. */
  ghost predicate AllFamiliesMark(input: array2<Byte>, s: nat, i: int, j: int)
    requires input.Length0 == input.Length1
    reads input
  {
    var n := input.Length0;
    FamilyMarks(input, s, ForwardFromLeft, 0, n, i, j) ||
    FamilyMarks(input, s, BackwardFromRight, 0, n, i, j) ||
    FamilyMarks(input, s, ForwardFromTop, 1, n, i, j) ||
    FamilyMarks(input, s, BackwardFromTop, 0, n - 1, i, j)
  }

  /** A job marks a cell only through the one start its family has for that cell. */
  lemma MarkedByFixesStart(input: array2<Byte>, s: nat, job: Job, i: int, j: int)
    requires input.Length0 == input.Length1
    requires MarkedBy(input, s, job, i, j)
    ensures job.start == StartThrough(job.family, input.Length0, i, j)
  {
    MarkedByIsSomeRun(input, s, job, i, j);
  }

  /** A call whose diagonal has fewer than two cells marks nothing. */
  lemma ShortDiagonalMarksNothing(input: array2<Byte>, s: nat, job: Job, i: int, j: int)
    requires input.Length0 == input.Length1
    requires MaxLen(job, input.Length0) < 2
    ensures !MarkedBy(input, s, job, i, j)
  {
  }

  /** A family marks a cell over the starts [lo, hi) iff some job of the family with a start in that range marks it. */
  lemma FamilyMarksIsSomeStart(input: array2<Byte>, s: nat, f: Family, lo: int, hi: int, i: int, j: int)
    requires input.Length0 == input.Length1
    ensures FamilyMarks(input, s, f, lo, hi, i, j) <==> exists st :: lo <= st < hi && MarkedBy(input, s, Job(f, st), i, j)
  {
    if st :| lo <= st < hi && MarkedBy(input, s, Job(f, st), i, j) {
      MarkedByFixesStart(input, s, Job(f, st), i, j);
    }
  }

  /** Extending a family's start range by one start adds exactly what that one job marks. */
  lemma FamilyMarksExtend(input: array2<Byte>, s: nat, f: Family, lo: int, hi: int)
    requires input.Length0 == input.Length1
    requires lo <= hi
    ensures forall i, j ::
      FamilyMarks(input, s, f, lo, hi + 1, i, j) <==>
      FamilyMarks(input, s, f, lo, hi, i, j) || MarkedBy(input, s, Job(f, hi), i, j)
  {
    forall i, j | MarkedBy(input, s, Job(f, hi), i, j)
      ensures hi == StartThrough(f, input.Length0, i, j)
    {
      MarkedByFixesStart(input, s, Job(f, hi), i, j);
    }
  }
}
