# Gauss-Seidel solver

A model of `GaussSeidel(A, b, es, maxit)` from `GaSeidel.py`. The routine solves A x = b
by Gauss-Seidel sweeps without relaxation. It proceeds in four steps:

1. It rejects a non-square A.
2. It builds the iteration matrix C and the offset vector d. C is A with its diagonal zeroed
   and each row divided by its pivot A[i, i]. d[i] is b[i] divided by that pivot.
3. It sweeps, starting from x = 0, for at most `maxit` sweeps. Each sweep first saves x in
   `xold`. It then overwrites x[i] in ascending order with d[i] - C[i, :] . x, so the update
   uses the components already renewed in this sweep. Whenever the new x[i] is not zero, it
   records the relative change |(x[i] - xold[i]) / x[i]| in `ea[i]`.
4. It leaves the loop as soon as max(ea) < es and returns x.

The project has two modules:

- `SweepSpec` (`sweep_spec.dfy`) is the specification, written over sequences of reals:
  - `IterationMatrix` and `Offset` give C and d.
  - `SweepPrefix` and `GSStep` give one in-place sweep.
  - `ErrUpdate` and `Step` give one pass of the loop body.
  - `Loop` is the loop with its exit test.
  - `Solve` is the whole routine.
  - The lemmas beside them state what these definitions mean:
    - A fixed point of a sweep is exactly a solution of A x = b.
    - Each component uses the new values before it and the old values after it.
    - Meeting the exit test bounds every nonzero component's relative move, including in
      the vector the routine returns.
    - The loop stops after the first sweep that meets the test.
    - The routine returns the last iterate when no sweep meets the test.
- `GaSeidel` (`ga_seidel.dfy`) is the routine as the source runs it. It works on `array2<real>`
  and `array<real>`, with the nested build loops and the sweep loop that overwrites `x` in
  place. Each method is proved against the functions of `SweepSpec`. `GaussSeidel` ensures
  that its result equals `Solve` applied to the rows of A.

Arithmetic is over exact `real` numbers. The source's error string for a non-square matrix
is the `NotSquare` constructor of `Result`. The returned vector is `Solution(x)`.

`GaSeidel.py:54-55` has a third return, the string 'maximum iterations reached', guarded by
`it == maxit`. That branch cannot be taken, so `Result` has no constructor for it:

- `it` is the loop variable of `for it in range(maxit)`, so it never exceeds `maxit - 1`.
- `RunSweeps` ensures `it < maxit`, and `GaussSeidel` marks the branch unreachable with
  `assert false`.
- `ExhaustedReturnsLastIterate` shows what happens instead: when no sweep meets the exit
  test, the iterate after `maxit` sweeps is returned as the solution.

## Model

| member | source | states |
|---|---|---|
| GaSeidel.GaussSeidel | GaSeidel.py:3-57 | A non-square A gives `NotSquare` and a square one never does. The result equals `Solve` on A's rows, b, es and maxit: the build of C and d, then sweeps from zero with the exit test, then x. |
| GaSeidel.OffDiagonal | GaSeidel.py:21-28 | The new C is n by n, holds A[i, j] off the diagonal and 0 on it. |
| GaSeidel.DivideByPivots | GaSeidel.py:30-35 | Every entry of row i of C is divided by A[i, i]. A fresh d of length n holds b[i] / A[i, i]. |
| GaSeidel.BuildIteration | GaSeidel.py:21-35 | C has a zero diagonal and C[i, j] = A[i, j] / A[i, i] off it. d[i] = b[i] / A[i, i]. |
| GaSeidel.BuildMatchesSpec | GaSeidel.py:21-35 | Arrays with BuildIteration's entries are exactly `IterationMatrix` and `Offset` of A and b. |
| GaSeidel.RowDot | GaSeidel.py:46 | The loop returns row i of C dotted with x. |
| GaSeidel.UpdateComponent | GaSeidel.py:46 | Only x[i] changes. It becomes d[i] minus row i of C dotted with x as it stood, including the entries already renewed. |
| GaSeidel.RecordChange | GaSeidel.py:48-49 | Only ea[i] can change. It becomes the relative change of x[i] when x[i] is nonzero and otherwise keeps its old value. |
| GaSeidel.Snapshot | GaSeidel.py:42-43 | xold becomes a copy of x. |
| GaSeidel.Sweep | GaSeidel.py:45-49 | After the loop over i, x is `GSStep` of the old x. ea is `ErrUpdate` of the old ea, the saved xold and the new x. |
| GaSeidel.SnapshotAndSweep | GaSeidel.py:42-49 | One pass of the loop body takes (x, ea) to `Step` of (x, ea). |
| GaSeidel.RunSweeps | GaSeidel.py:41-52 | The final (x, ea) is `Loop`: sweep, then stop when max(ea) < es or after maxit sweeps. The loop variable left behind is below maxit. |
| SweepSpec.Solve | GaSeidel.py:17-57 | Gives `NotSquare` exactly when n differs from m. Otherwise gives a solution of length n. |
| SweepSpec.MaxOf | GaSeidel.py:51 | The value is an entry of ea and no entry exceeds it. |
| SweepSpec.IterationMatrix | GaSeidel.py:21-34 | C is n by n with a zero diagonal, and each off-diagonal entry times the row's pivot gives back A[i][j]. |
| SweepSpec.Offset | GaSeidel.py:35 | d has length n and d[i] times the pivot A[i][i] gives back b[i]. |
| SweepSpec.PrefixKeeps | GaSeidel.py:45-46 | Partway through a sweep (`SweepPrefix`), entries not yet reached still hold the old values, and entries already written are never rewritten later in the sweep. |
| SweepSpec.FixedPointIsSolution | GaSeidel.py:21-46 | A sweep over C and d leaves x unchanged exactly when A x = b holds row by row. |
| SweepSpec.SweepPrefixEntries | GaSeidel.py:45-46 | Just before x[i] is updated, entries at i and above hold the previous sweep's values and entries below i hold this sweep's final values. |
| SweepSpec.SweepRecurrence | GaSeidel.py:45-46 | The new x[i] is d[i] minus C's row i against the new x below i and the old x above i. |
| SweepSpec.SequentialUpdateExample | GaSeidel.py:45-46 | On a 2 by 2 case the second component is computed from the already-updated first component: [1.5, 0.75], not the simultaneous [1.5, 1.5]. |
| SweepSpec.RelativeChangeScaled | GaSeidel.py:48-49 | `RelativeChange`: for a nonzero new value it is the non-negative e with e * abs(x) == abs(x - xold). For a zero new value it is the previous entry, unchanged. |
| SweepSpec.ErrUpdateEntry | GaSeidel.py:48-49 | `ErrUpdate` at entry i: a component that lands on zero keeps its ea entry, any other records its relative change. |
| SweepSpec.StepEntry | GaSeidel.py:42-49 | `Step`, one pass of the loop body, at component i. The new x[i] follows the Gauss-Seidel recurrence. The new ea[i] records the relative change against the saved x, or keeps its old value when the new x[i] is zero. |
| SweepSpec.AfterStep | GaSeidel.py:41-49 | k + 1 sweeps are k sweeps followed by one more `Step`. |
| SweepSpec.ErrorsNonNegative | GaSeidel.py:37-49 | ea starts non-negative and stays so through any number of sweeps. |
| SweepSpec.ConvergedIffAllBelow | GaSeidel.py:51 | `Converged`, the exit test max(ea) < es, holds exactly when every entry of ea is below es. |
| SweepSpec.ConvergedBoundsChange | GaSeidel.py:48-52 | After the sweep that meets the exit test, every component that is not zero moved by less than es times its new magnitude. |
| SweepSpec.UpdatedBelow | GaSeidel.py:48-51 | The same bound, stated for a single error update that meets the test. |
| SweepSpec.RelativeBound | GaSeidel.py:49 | A recorded relative change below es means abs(x - xold) < es * abs(x). |
| SweepSpec.StaleErrorExample | GaSeidel.py:48-49 | A component that lands exactly on zero keeps its earlier ea entry, so the exit test can hold although that component moved by 1. |
| SweepSpec.FirstFromIsFirst | GaSeidel.py:41-52 | The number of sweeps run is one whose exit test holds, unless it is maxit. No earlier sweep met the test. |
| SweepSpec.FirstFromUnique | GaSeidel.py:41-52 | Those two properties determine the number of sweeps. |
| SweepSpec.LoopStopsAtFirst | GaSeidel.py:41-52 | `Loop`'s result is the state after exactly that number of unconditional sweeps. |
| SweepSpec.LoopMeetsTestOrSpendsBudget | GaSeidel.py:41-52 | `Loop` ends in a state whose ea meets the exit test, or in the state after the whole budget of sweeps. |
| SweepSpec.SolveConvergedBound | GaSeidel.py:41-57 | When the loop left because the exit test held, every nonzero component of the returned x moved by less than es times its magnitude in the last sweep. |
| SweepSpec.ExhaustedReturnsLastIterate | GaSeidel.py:54-57 | If no sweep within the budget meets the test, the routine returns the iterate after maxit sweeps as its solution. |

## Left out

- Floating point: all arithmetic is exact `real`. Rounding, overflow, and NaN/inf are not
  modelled, so the results are the exact values a float run approximates.
- GaSeidel.GaussSeidel: for a square A, requires a nonzero diagonal. A zero pivot makes numpy divide by zero,
  producing inf/nan with a warning and no exception. The model does not follow that path.
- GaSeidel.GaussSeidel: for a square A, also requires n >= 1, at least n entries in b, and
  maxit >= 1. The source fails on each of these with an exception rather than a result:
  - `np.max` of an empty `ea` raises;
  - `b[i]` out of range raises;
  - with `range(0)`, `it` is never bound at line 54.
- The numpy containers: the (n, 1) column shapes of x, d, ea and xold, and `np.matrix`
  inputs. They become plain arrays of length n.
- The demonstration at the end of the file (GaSeidel.py:59-67). It builds an example matrix,
  prints, and compares against `np.linalg.solve`, which is a foreign library call.
- Convergence: the model does not prove that sweeps converge for diagonally dominant A, nor
  any residual bound. The code neither states nor checks these.
- The "no derived data is built for a non-square A" guarantee. It appears only as the method
  returning before any allocation, not as a stated contract.
