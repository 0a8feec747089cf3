// The Gauss-Seidel routine of GaSeidel.py over arrays, as the source runs it:
// the square check, the build of C and d by nested loops, and the sweep loop
// that overwrites x one component at a time. Each method is proved against
// the specification in sweep_spec.dfy.
module GaSeidel {
  import opened SweepSpec

  /** The rows of a two-dimensional array, as a matrix value. */
  ghost function Rows(A: array2<real>): (M: Matrix)
    reads A
    ensures |M| == A.Length0
    ensures forall i :: 0 <= i < A.Length0 ==> |M[i]| == A.Length1
    ensures forall i, j :: 0 <= i < A.Length0 && 0 <= j < A.Length1 ==> M[i][j] == A[i, j]
  {
    seq(A.Length0, i requires 0 <= i < A.Length0 reads A =>
      seq(A.Length1, j requires 0 <= j < A.Length1 reads A => A[i, j]))
  }

  /** C starts as zeros and receives A's off-diagonal entries. */
  method OffDiagonal(A: array2<real>) returns (C: array2<real>)
    requires A.Length0 == A.Length1
    ensures fresh(C) && C.Length0 == C.Length1 == A.Length0
    ensures forall i, j :: 0 <= i < C.Length0 && 0 <= j < C.Length0 ==>
      C[i, j] == if i == j then 0.0 else A[i, j]
  {
    var n := A.Length0;
    C := new real[n, n]((i, j) => 0.0);
    for i := 0 to n
      invariant forall p, q :: 0 <= p < i && 0 <= q < n ==> C[p, q] == if p == q then 0.0 else A[p, q]
      invariant forall p, q :: i <= p < n && 0 <= q < n ==> C[p, q] == 0.0
    {
      for j := 0 to n
        invariant forall p, q :: 0 <= p < i && 0 <= q < n ==> C[p, q] == if p == q then 0.0 else A[p, q]
        invariant forall q :: 0 <= q < j ==> C[i, q] == if i == q then 0.0 else A[i, q]
        invariant forall q :: j <= q < n ==> C[i, q] == 0.0
        invariant forall p, q :: i < p < n && 0 <= q < n ==> C[p, q] == 0.0
      {
        if i != j {
          C[i, j] := A[i, j];
        }
      }
    }
  }

  /** Divides each row of C, and each entry of b, by the row's pivot A[i, i]. */
  method DivideByPivots(A: array2<real>, b: array<real>, C: array2<real>) returns (d: array<real>)
    requires A.Length0 == A.Length1 == C.Length0 == C.Length1 && A.Length0 <= b.Length && C != A
    requires forall i :: 0 <= i < A.Length0 ==> A[i, i] != 0.0
    modifies C
    ensures fresh(d) && d.Length == A.Length0
    ensures forall i, j :: 0 <= i < C.Length0 && 0 <= j < C.Length0 ==> C[i, j] == old(C[i, j]) / A[i, i]
    ensures forall i :: 0 <= i < d.Length ==> d[i] == b[i] / A[i, i]
  {
    var n := A.Length0;
    d := new real[n](_ => 0.0);
    for i := 0 to n
      invariant forall p, q :: 0 <= p < i && 0 <= q < n ==> C[p, q] == old(C[p, q]) / A[p, p]
      invariant forall p, q :: i <= p < n && 0 <= q < n ==> C[p, q] == old(C[p, q])
      invariant forall p :: 0 <= p < i ==> d[p] == b[p] / A[p, p]
    {
      for j := 0 to n
        invariant forall p, q :: 0 <= p < i && 0 <= q < n ==> C[p, q] == old(C[p, q]) / A[p, p]
        invariant forall q :: 0 <= q < j ==> C[i, q] == old(C[i, q]) / A[i, i]
        invariant forall p, q :: i <= p < n && 0 <= q < n && (p != i || j <= q) ==> C[p, q] == old(C[p, q])
        invariant forall p :: 0 <= p < i ==> d[p] == b[p] / A[p, p]
      {
        C[i, j] := C[i, j] / A[i, i];
      }
      d[i] := b[i] / A[i, i];
    }
  }

  /**
   * The build phase: C holds A's off-diagonal entries divided by the row's
   * pivot and zeros on its diagonal; d holds b divided by the pivots.
   */
  method BuildIteration(A: array2<real>, b: array<real>) returns (C: array2<real>, d: array<real>)
    requires A.Length0 == A.Length1 && A.Length0 <= b.Length
    requires forall i :: 0 <= i < A.Length0 ==> A[i, i] != 0.0
    ensures C.Length0 == C.Length1 == A.Length0 && d.Length == A.Length0
    ensures forall i :: 0 <= i < C.Length0 ==> C[i, i] == 0.0
    ensures forall i, j :: 0 <= i < C.Length0 && 0 <= j < C.Length0 && i != j ==> C[i, j] == A[i, j] / A[i, i]
    ensures forall i :: 0 <= i < d.Length ==> d[i] == b[i] / A[i, i]
  {
    C := OffDiagonal(A);
    d := DivideByPivots(A, b, C);
  }

  /** What BuildIteration promises, entry by entry, is the specification's C and d. */
  lemma BuildMatchesSpec(A: array2<real>, b: array<real>, C: array2<real>, d: array<real>)
    requires A.Length0 == A.Length1 && A.Length0 <= b.Length
    requires forall i :: 0 <= i < A.Length0 ==> A[i, i] != 0.0
    requires C.Length0 == C.Length1 == A.Length0 && d.Length == A.Length0
    requires forall i :: 0 <= i < C.Length0 ==> C[i, i] == 0.0
    requires forall i, j :: 0 <= i < C.Length0 && 0 <= j < C.Length0 && i != j ==> C[i, j] == A[i, j] / A[i, i]
    requires forall i :: 0 <= i < d.Length ==> d[i] == b[i] / A[i, i]
    ensures Rows(C) == IterationMatrix(Rows(A)) && d[..] == Offset(Rows(A), b[..])
  {
    var Cs, Ms := Rows(C), IterationMatrix(Rows(A));
    forall i | 0 <= i < A.Length0
      ensures Cs[i] == Ms[i]
    {
    }
  }

  /** Row i of C dotted with x. */
  method RowDot(C: array2<real>, i: nat, x: array<real>) returns (s: real)
    requires i < C.Length0 && C.Length1 == x.Length
    ensures s == Dot(Rows(C)[i], x[..])
  {
    s := 0.0;
    for j := 0 to x.Length
      invariant s == SumRange(Rows(C)[i], x[..], 0, j)
    {
      s := s + C[i, j] * x[j];
    }
  }

  /** Recomputes x[i] from the vector as it stands. */
  method UpdateComponent(C: array2<real>, d: array<real>, x: array<real>, i: nat)
    requires C.Length0 == C.Length1 == x.Length == d.Length && i < x.Length && d != x
    modifies x
    ensures x[..] == old(x[..])[i := d[i] - Dot(Rows(C)[i], old(x[..]))]
  {
    var s := RowDot(C, i, x);
    x[i] := d[i] - s;
  }

  /** Records the relative change of x[i], unless the new x[i] is zero. */
  method RecordChange(x: array<real>, xold: array<real>, ea: array<real>, i: nat)
    requires x.Length == xold.Length == ea.Length && i < x.Length && ea != x && ea != xold
    modifies ea
    ensures ea[..] == old(ea[..])[i := RelativeChange(old(ea[i]), xold[i], x[i])]
  {
    if x[i] != 0.0 {
      ea[i] := Abs((x[i] - xold[i]) / x[i]);
    }
  }

  /** Saves the current iterate for the convergence test. */
  method Snapshot(x: array<real>, xold: array<real>)
    requires x.Length == xold.Length && x != xold
    modifies xold
    ensures xold[..] == x[..]
  {
    for i := 0 to x.Length
      invariant forall j :: 0 <= j < i ==> xold[j] == x[j]
    {
      xold[i] := x[i];
    }
  }

  /**
   * One sweep: x[i] is overwritten in ascending order from the vector as it
   * stands, and ea[i] records the relative change when the new x[i] is not zero.
   */
  method Sweep(C: array2<real>, d: array<real>, x: array<real>, xold: array<real>, ea: array<real>)
    requires C.Length0 == C.Length1 == x.Length == d.Length == xold.Length == ea.Length
    requires x != xold && x != ea && xold != ea && d != x && d != ea
    requires xold[..] == x[..]
    modifies x, ea
    ensures Iterate(x[..], ea[..]) == Step(Rows(C), d[..], Iterate(old(x[..]), old(ea[..])))
  {
    var n := x.Length;
    for i := 0 to n
      invariant x[..] == SweepPrefix(Rows(C), d[..], xold[..], i)
      invariant forall j :: 0 <= j < i ==> ea[j] == RelativeChange(old(ea[j]), xold[j], x[j])
      invariant forall j :: i <= j < n ==> ea[j] == old(ea[j])
    {
      UpdateComponent(C, d, x, i);
      RecordChange(x, xold, ea, i);
    }
    assert x[..] == GSStep(Rows(C), d[..], xold[..]);
    assert ea[..] == ErrUpdate(old(ea[..]), xold[..], x[..]);
  }

  /** The body of the sweep loop: save x in xold, then sweep. */
  method SnapshotAndSweep(C: array2<real>, d: array<real>, x: array<real>, xold: array<real>, ea: array<real>)
    requires C.Length0 == C.Length1 == x.Length == d.Length == xold.Length == ea.Length
    requires x != xold && x != ea && xold != ea && d != x && d != ea && d != xold
    modifies x, xold, ea
    ensures Iterate(x[..], ea[..]) == Step(Rows(C), d[..], Iterate(old(x[..]), old(ea[..])))
  {
    Snapshot(x, xold);
    Sweep(C, d, x, xold, ea);
  }

  /**
   * The sweep loop: at most maxit sweeps, each preceded by a snapshot of x,
   * leaving the loop after the first sweep whose largest relative change is
   * below es. Returns the last value of the loop counter.
   */
  method RunSweeps(C: array2<real>, d: array<real>, x: array<real>, xold: array<real>, ea: array<real>,
                   es: real, maxit: nat) returns (it: nat)
    requires C.Length0 == C.Length1 == x.Length == d.Length == xold.Length == ea.Length > 0
    requires x != xold && x != ea && xold != ea && d != x && d != ea && d != xold
    requires 1 <= maxit
    modifies x, xold, ea
    ensures it < maxit
    ensures Iterate(x[..], ea[..]) == Loop(Rows(C), d[..], es, Iterate(old(x[..]), old(ea[..])), maxit)
  {
    ghost var Cs, ds := Rows(C), d[..];
    ghost var goal := Loop(Cs, ds, es, Iterate(x[..], ea[..]), maxit);
    it := 0;
    var sweeps := 0;
    while sweeps < maxit
      invariant 0 <= sweeps <= maxit && it < maxit
      invariant Rows(C) == Cs && d[..] == ds
      invariant sweeps < maxit ==> goal == Loop(Cs, ds, es, Iterate(x[..], ea[..]), maxit - sweeps)
      invariant sweeps == maxit ==> goal == Iterate(x[..], ea[..])
    {
      ghost var cur := Iterate(x[..], ea[..]);
      it := sweeps;
      SnapshotAndSweep(C, d, x, xold, ea);
      assert Iterate(x[..], ea[..]) == Step(Cs, ds, cur);
      sweeps := sweeps + 1;
      if Converged(ea[..], es) {
        break;
      }
    }
  }

  /**
   * Solves A x = b by Gauss-Seidel sweeps from x = 0, stopping after the
   * first sweep whose largest relative change is below es, or after maxit
   * sweeps; a non-square A is rejected before anything is built.
   */
  method GaussSeidel(A: array2<real>, b: array<real>, es: real := 0.0000001, maxit: nat := 50) returns (r: Result)
    requires A.Length0 == A.Length1 ==> 0 < A.Length0 && A.Length0 <= b.Length && 1 <= maxit
    requires A.Length0 == A.Length1 ==> forall i :: 0 <= i < A.Length0 ==> A[i, i] != 0.0
    ensures r.NotSquare? <==> A.Length0 != A.Length1
    ensures r == Solve(A.Length0, A.Length1, Rows(A), b[..], es, maxit)
  {
    var n, m := A.Length0, A.Length1;
    if n != m {
      return NotSquare;
    }
    var C, d := BuildIteration(A, b);
    BuildMatchesSpec(A, b, C, d);
    var x := new real[n](_ => 0.0);
    var ea := new real[n](_ => 0.0);
    var xold := new real[n](_ => 0.0);
    assert Iterate(x[..], ea[..]) == Start(n);
    var it := RunSweeps(C, d, x, xold, ea, es, maxit);
    if it == maxit {
      // The "maximum iterations reached" return: the loop counter stops at maxit - 1.
      assert false;
    }
    r := Solution(x[..]);
  }
}
