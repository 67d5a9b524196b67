# Diagonal-sum engine

A Dafny model of the multithreaded diagonal-sum engine in
`multithreaded-diagonal-sums/proj4.c`. The engine receives an n-by-n grid of
`unsigned char` values and a target `s`. It returns an n-by-n grid in which
every cell lying on a matching diagonal run is set to 1, and every other cell
is 0. A run here is a prefix of a diagonal: it starts at the diagonal's upper
end, on the top row or on the left or right edge, and goes down along the
diagonal. A run matches when it has length at least 2 and its values sum to
`s`.

- `DiagonalSpec.dfy`: the specification of one call of a diagonal routine. It
  defines the cells the call visits (`Cell`), the sum it recomputes for each
  length (`RunSum`), and the cells it marks (`MarkedBy`). `FamilyMarks` lifts
  this to a range of start rows or start columns.
- `Enumerator.dfy`: the four routines `processForwardDiagonalFromLeftEdge`,
  `processBackwardDiagonalFromRightEdge`, `processForwardDiagonalFromTopEdge`
  and `processBackwardDiagonalFromTopEdge`. Each is a method on `array2` with
  an outer loop over `len` with a summing loop and a marking loop inside. Its postcondition gives the whole new
  output grid: a cell becomes 1 exactly when the call marks it, and every
  other cell keeps its old value.
- `Partition.dfy`: the row partitioner. `RangeStart` is the running
  `currentRow`. `PartitionRows` is the loop that lays out the ranges. Lemmas
  prove that the ranges are ordered, cover `[0, n)`, are pairwise disjoint,
  have the stated sizes, and that for n >= 1 exactly one of them starts at row 0.
- `Reference.dfy`: an independent description of the result. Through each
  cell pass one down-right and one down-left diagonal. A cell is marked when
  a prefix of one of these diagonals contains the cell and sums to `s`. The
  prefix starts at the diagonal's upper end and has length at least 2. The
  lemmas show that the four families, over the start values the driver uses,
  mark exactly these cells.
- `Engine.dfy`: the worker `diagonalSumsThread`, the zero-filled output
  grid, and `diagonalSums`. The workers run one after another over the
  partition. The final postcondition mentions neither `t` nor the order in
  which the workers run, so every thread count gives the same grid.
  `DiagonalSumsInOrder` runs the workers in any schedule that lists every
  range, and proves it yields that same grid.

The engine tests only prefixes of each diagonal. A routine always sums from
its start cell on the left, right or top edge. A run lying strictly inside a
diagonal, not touching that edge, is never tested on its own. The model
follows the code here. A reading that counts every contiguous diagonal run
would mark more cells. Example: a 3-by-3 grid of ones with target 2. The runs
(1,1),(2,2) and (1,1),(2,0) each sum to 2 but start at no edge cell of their
diagonal, so the engine leaves (2,2) and (2,0) at 0; that reading
would mark them.

Input cells are modelled as `Byte` (0..255), the type the source stores.
Nothing in the model depends on the cells being digits.

## Model

| member | source | states |
|---|---|---|
| `DiagonalSpec.Cell` | multithreaded-diagonal-sums/proj4.c:143-232 | the k-th cell of each routine, `(startRow+k, k)`, `(startRow+k, n-1-k)`, `(k, startCol+k)` or `(k, startCol-k)`, lies inside the n-by-n grid whenever the start is one the routine accepts and `k < len <= ` its loop bound |
| `DiagonalSpec.CellInjective` | multithreaded-diagonal-sums/proj4.c:143-232 | two positions of one routine's diagonal are different cells, so no run visits a cell twice |
| `DiagonalSpec.AmongFirstIsFirstCells` | multithreaded-diagonal-sums/proj4.c:150-158 | the cells the marking loop writes for a length `len`, described by its index expressions, are exactly the first `len` cells of the diagonal that the summing loop read |
| `DiagonalSpec.StartThrough` | multithreaded-diagonal-sums/proj4.c:143-232 | for each family, the one start whose diagonal passes through (i, j), and exactly when that start is valid and reaches the cell |
| `DiagonalSpec.RunSum` | multithreaded-diagonal-sums/proj4.c:147-152 | the sum of the first `len` cells is at most 255·len, so the `unsigned long` accumulator cannot overflow |
| `DiagonalSpec.MarkedByFixesStart` | multithreaded-diagonal-sums/proj4.c:143-232 | a call marks a cell only if its start is the one its family has for that cell |
| `DiagonalSpec.ShortDiagonalMarksNothing` | multithreaded-diagonal-sums/proj4.c:146-160 | a start with fewer than two cells on its diagonal marks nothing (left or right edge at row n-1, backward top edge at column 0) |
| `DiagonalSpec.MarkedBelowIsSomeRun` | multithreaded-diagonal-sums/proj4.c:146-159 | the cells marked after the lengths below `hi` have been tried are exactly the cells on some tried run, of length 2 or more, whose recomputed sum equals `s` |
| `DiagonalSpec.MarkedByIsSomeRun` | multithreaded-diagonal-sums/proj4.c:146-159 | one call marks a cell iff its start is valid and some length `2 <= len <=` the loop bound has the cell among its first `len` cells and sums to `s` |
| `DiagonalSpec.FamilyMarksIsSomeStart` | multithreaded-diagonal-sums/proj4.c:247-262 | a family over starts `[lo, hi)` marks a cell iff some call of that family with a start in `[lo, hi)` marks it |
| `DiagonalSpec.FamilyMarksExtend` | multithreaded-diagonal-sums/proj4.c:247-250 | one more start in a family's range adds exactly the cells that call marks |
| `Enumerator.ProcessForwardDiagonalFromLeftEdge` | multithreaded-diagonal-sums/proj4.c:143-161 | afterwards cell (i, j) becomes 1 if it lies on a run `(startRow+k, k)`, `k < len`, `2 <= len <= n-startRow`, whose sum is `s`; otherwise it keeps its old value |
| `Enumerator.ProcessBackwardDiagonalFromRightEdge` | multithreaded-diagonal-sums/proj4.c:167-185 | the same for runs `(startRow+k, n-1-k)`, `2 <= len <= n-startRow` |
| `Enumerator.ProcessForwardDiagonalFromTopEdge` | multithreaded-diagonal-sums/proj4.c:191-209 | the same for runs `(k, startCol+k)`, `2 <= len <= n-startCol` |
| `Enumerator.ProcessBackwardDiagonalFromTopEdge` | multithreaded-diagonal-sums/proj4.c:215-232 | the same for runs `(k, startCol-k)`, `2 <= len <= startCol+1` |
| `Reference.UpperEnd` | multithreaded-diagonal-sums/proj4.c:252-262 | the diagonal through a cell starts at a cell on the top row or on its edge column, a fixed number of steps above the cell |
| `Reference.RunSumIsDiagSum` | multithreaded-diagonal-sums/proj4.c:147-152 | a routine's recomputed sum equals the sum of the first `len` cells from its anchor cell, in its direction |
| `Reference.AllRunSumsAreDiagSums` | multithreaded-diagonal-sums/proj4.c:146-152 | the same for every length the routine tries |
| `Reference.MarkedByMatchesRunThrough` | multithreaded-diagonal-sums/proj4.c:146-159 | a call anchored at the upper end of the diagonal through a cell marks the cell iff a matching prefix of that diagonal reaches it |
| `Reference.ForwardFamiliesMatchReference` | multithreaded-diagonal-sums/proj4.c:143-209 | left-edge starts 0..n-1 and top-edge starts 1..n-1 together mark exactly the cells on a matching down-right prefix, and no cell is marked by both families, since column 0 is left to the left edge |
| `Reference.BackwardFamiliesMatchReference` | multithreaded-diagonal-sums/proj4.c:167-232 | right-edge starts 0..n-1 and top-edge starts 0..n-2 together mark exactly the cells on a matching down-left prefix, and no cell is marked by both families, since column n-1 is left to the right edge |
| `Reference.AllFamiliesMatchReference` | multithreaded-diagonal-sums/proj4.c:247-262 | the four families over the driver's start ranges mark a cell iff it lies on a matching run |
| `Reference.SingleCellGridHasNoRun` | multithreaded-diagonal-sums/proj4.c:146 | in a 1-by-1 grid the only cell is never on a matching run |
| `Partition.RangeStartClosedForm` | multithreaded-diagonal-sums/proj4.c:322-336 | range w starts at `w·(n/t) + min(w, n%t)` |
| `Partition.RangesEndAtN` | multithreaded-diagonal-sums/proj4.c:322-349 | the ranges end exactly at row n |
| `Partition.RangeSize` | multithreaded-diagonal-sums/proj4.c:333-336 | range w has `n/t` rows plus one when `w < n%t`; the last range `[currentRow, n)` has `n/t` |
| `Partition.RangeStartMonotone` | multithreaded-diagonal-sums/proj4.c:331-336 | ranges are laid out in row order |
| `Partition.OwnerFrom` | multithreaded-diagonal-sums/proj4.c:322-349 | names a range that contains a given row |
| `Partition.RangesCover` | multithreaded-diagonal-sums/proj4.c:322-349 | every row of `[0, n)` is in some range |
| `Partition.RangesDisjoint` | multithreaded-diagonal-sums/proj4.c:322-349 | no row is in two ranges |
| `Partition.OnlyFirstRangeStartsAtZero` | multithreaded-diagonal-sums/proj4.c:307-349 | for n >= 1, only the first range starts at row 0, so the top-edge routines run in exactly one worker |
| `Partition.PartitionRows` | multithreaded-diagonal-sums/proj4.c:307-349 | the loop, with its `t == 1` branch, yields t ranges, range w being `[RangeStart(w), RangeStart(w+1))` |
| `Engine.PrefixThenWorker` | multithreaded-diagonal-sums/proj4.c:247-262 | running the next worker after the earlier ones leaves the rows up to its end and the top edge scanned |
| `Engine.FirstRangesArePrefix` | multithreaded-diagonal-sums/proj4.c:322-351 | the workers of the first m ranges together mark exactly what scanning rows `[0, currentRow)` and the top edge marks |
| `Engine.EverySchedulePrefixMatches` | multithreaded-diagonal-sums/proj4.c:318-359 | a schedule that lists every range of the partition, and nothing else, marks a cell iff it lies on a matching run |
| `Engine.DiagonalSumsThread` | multithreaded-diagonal-sums/proj4.c:237-266 | afterwards a cell becomes 1 if a left- or right-edge call for a row in `[startRow, endRow)` marks it, or, when `startRow == 0`, a top-edge call for columns 1..n-1 (forward) or 0..n-2 (backward) marks it; otherwise it keeps its old value |
| `Engine.AllocateZeroGrid` | multithreaded-diagonal-sums/proj4.c:282-304 | the output grid is a fresh n-by-n grid with every cell 0 |
| `Engine.DiagonalSums` | multithreaded-diagonal-sums/proj4.c:278-361 | the result is a fresh n-by-n grid whose cell (i, j) is 1 iff it lies on a matching run, and 0 otherwise, for every `t >= 1` |
| `Engine.OverlappingWorkerWrites` | multithreaded-diagonal-sums/proj4.c:143-185 | a 4-by-4 grid, s = 3 and t = 2 (ranges [0, 2) and [2, 4)) on which both workers mark cell (3, 2): the forward left-edge run from row 1 and the backward right-edge run from row 2 both sum to 3 and reach it |
| `Engine.DiagonalSumsInOrder` | multithreaded-diagonal-sums/proj4.c:318-359 | running the workers in any order that lists each range at least once (any permutation, and repeats too) yields the same grid: 1 exactly on matching runs, 0 elsewhere |

## Left out

- `initializeGrid`, `writeGrid` and `freeGrid` (proj4.c:30-137) are file I/O and deallocation. The model takes the input grid as an `array2` and trusts that it is square.
- Allocation failure, thread-creation failure and join failure end the process with `exit(1)`. These paths are not modelled. Allocation in Dafny cannot fail.
- Threads. `pthread_create` and `pthread_join` become a sequential loop over the ranges: in range order in `DiagonalSums`, in any given order in `DiagonalSumsInOrder`. Each worker runs to completion before the next starts, so workers that interleave their individual writes are not modelled. The workers' write sets can overlap: two workers can set the same cell, an unsynchronised write to one byte from two threads (`OverlappingWorkerWrites` gives such a grid). The result still does not depend on the schedule, because every write stores the constant 1.
- `Engine.DiagonalSums`: requires only `1 <= t`. The source documents `1 <= t <= 3`, but its arithmetic works for any positive `t`.
- `unsigned long` and `int` widths. Sums are `nat`. `RunSum` bounds a sum by 255·len, so no real grid size can overflow the accumulator.
- `dynamic-memory-manager/proj2.c` is not part of this model. It shares no code or data with the engine.
