/**
 * The 8x8 linear system behind the homography solver, and Gaussian
 * elimination with partial pivoting followed by back-substitution, written
 * as functions of the system. The array-based solver in module Homography is
 * proved to compute exactly these functions; the lemmas here say why the
 * result solves the system.
 */
module LinearSystem {
  import opened Wrappers
  import opened Numeric

  /** Number of unknowns (and equations) of the homography system. */
  const N: nat := 8

  type Matrix = seq<seq<real>>

  /** The coefficient matrix `a` and right-hand side `b` of `a . h = b`. */
  datatype System = System(a: Matrix, b: seq<real>)

  predicate IsSquare(a: Matrix) {
    |a| == N && forall r :: 0 <= r < N ==> |a[r]| == N
  }

  predicate WellFormed(s: System) {
    IsSquare(s.a) && |s.b| == N
  }

  /** u[lo]*v[lo] + ... + u[hi-1]*v[hi-1], accumulated in increasing index order. */
  function Sum(u: seq<real>, v: seq<real>, lo: nat, hi: nat): real
    requires lo <= hi <= |u| && hi <= |v|
    decreases hi - lo
  {
    if hi == lo then 0.0 else Sum(u, v, lo, hi - 1) + u[hi - 1] * v[hi - 1]
  }

  function Dot(u: seq<real>, v: seq<real>): real
    requires |u| == |v|
  {
    Sum(u, v, 0, |u|)
  }

  /** `h` solves every equation of `s`. */
  predicate Satisfies(s: System, h: seq<real>)
    requires WellFormed(s)
  {
    |h| == N && forall r :: 0 <= r < N ==> Dot(s.a[r], h) == s.b[r]
  }

  // ---------------------------------------------------------------------
  // One elimination step: pivot choice, row swap, zeroing below the pivot
  // ---------------------------------------------------------------------

  /** Scans rows k..N-1 of column i, keeping the first row of largest magnitude. */
  function PivotScan(a: Matrix, i: nat, k: nat, best: nat): (m: nat)
    requires IsSquare(a) && i < k <= N && i <= best < k
    ensures i <= m < N
    decreases N - k
  {
    if k == N then best
    else if Abs(a[k][i]) > Abs(a[best][i]) then PivotScan(a, i, k + 1, k)
    else PivotScan(a, i, k + 1, best)
  }

  /** The row the solver swaps into position i: the first one of largest |a[k][i]|, k >= i. */
  function PivotRow(a: Matrix, i: nat): (m: nat)
    requires IsSquare(a) && i < N
    ensures i <= m < N
  {
    PivotScan(a, i, i + 1, i)
  }

  /** Columns 0..i-1 of `keep` followed by columns i..N-1 of `other`. */
  function SwapTail(keep: seq<real>, other: seq<real>, i: nat): (r: seq<real>)
    requires |keep| == N && |other| == N
    ensures |r| == N
  {
    seq(N, c requires 0 <= c < N => if c < i then keep[c] else other[c])
  }

  /** Row r after rows i and m were exchanged in columns i..N-1. */
  function SwappedRow(s: System, i: nat, m: nat, r: nat): (row: seq<real>)
    requires WellFormed(s) && i <= m < N && r < N
    ensures |row| == N
  {
    if r == i then SwapTail(s.a[i], s.a[m], i)
    else if r == m then SwapTail(s.a[m], s.a[i], i)
    else s.a[r]
  }

  /** Rows i and m of `a` exchanged in columns i..N-1 only, and entries i and m of `b` exchanged. */
  function Swapped(s: System, i: nat, m: nat): (t: System)
    requires WellFormed(s) && i <= m < N
    ensures WellFormed(t)
  {
    System(
      seq(N, r requires 0 <= r < N => SwappedRow(s, i, m, r)),
      seq(N, r requires 0 <= r < N =>
        if r == i then s.b[m] else if r == m then s.b[i] else s.b[r]))
  }

  /** Row k after `a[k][j] += c * a[i][j]` for j > i and `a[k][i] = 0`; columns before i untouched. */
  function EliminatedRow(rk: seq<real>, ri: seq<real>, i: nat, c: real): (r: seq<real>)
    requires |rk| == N && |ri| == N
    ensures |r| == N
  {
    seq(N, j requires 0 <= j < N => if j < i then rk[j] else if j == i then 0.0 else rk[j] + Scale(c, ri[j]))
  }

  /** The factor `c = -a[k][i] / a[i][i]` that clears a[k][i]. */
  function Multiplier(s: System, i: nat, k: nat): real
    requires WellFormed(s) && i < N && k < N && s.a[i][i] != 0.0
  {
    Quot(-s.a[k][i], s.a[i][i])
  }

  /** Every row k below the pivot row i gets `row k += m[k] * row i`; rows up to i are kept. */
  function EliminateWith(s: System, i: nat, m: seq<real>): (t: System)
    requires WellFormed(s) && i < N && |m| == N
    ensures WellFormed(t)
  {
    System(
      seq(N, k requires 0 <= k < N =>
        if k <= i then s.a[k] else EliminatedRow(s.a[k], s.a[i], i, m[k])),
      seq(N, k requires 0 <= k < N =>
        if k <= i then s.b[k] else s.b[k] + Scale(m[k], s.b[i])))
  }

  /** The multipliers of step i, one per row. */
  function Multipliers(s: System, i: nat): (m: seq<real>)
    requires WellFormed(s) && i < N && s.a[i][i] != 0.0
    ensures |m| == N
  {
    seq(N, k requires 0 <= k < N => Multiplier(s, i, k))
  }

  /** Every row k below the pivot row i gets `row k += Multiplier(s, i, k) * row i`. */
  function EliminateBelow(s: System, i: nat): (t: System)
    requires WellFormed(s) && i < N && s.a[i][i] != 0.0
    ensures WellFormed(t)
  {
    EliminateWith(s, i, Multipliers(s, i))
  }

  /**
   * Step i of the forward phase. `None` marks a zero pivot: math.js divides
   * by it without a check, so the solver's precondition excludes it.
   */
  function Step(s: System, i: nat): (r: Option<System>)
    requires WellFormed(s) && i < N
    ensures r.Some? ==> WellFormed(r.value)
  {
    var t := Swapped(s, i, PivotRow(s.a, i));
    if t.a[i][i] == 0.0 then None else Some(EliminateBelow(t, i))
  }

  /** The system after the first i steps of the forward phase. */
  function Eliminated(s: System, i: nat): (r: Option<System>)
    requires WellFormed(s) && i <= N
    ensures r.Some? ==> WellFormed(r.value)
  {
    if i == 0 then Some(s)
    else
      match Eliminated(s, i - 1)
      case None => None
      case Some(t) => Step(t, i - 1)
  }

  /** No pivot of the forward phase is zero. */
  predicate Solvable(s: System)
    requires WellFormed(s)
  {
    Eliminated(s, N).Some?
  }

  // ---------------------------------------------------------------------
  // Back-substitution
  // ---------------------------------------------------------------------

  function Zeros(): (z: seq<real>)
    ensures |z| == N && forall j :: 0 <= j < N ==> z[j] == 0.0
  {
    seq(N, _ => 0.0)
  }

  /** The vector after rows N-1 down to k were solved, starting from all zeros. */
  function BackSolveFrom(s: System, k: nat): (x: seq<real>)
    requires WellFormed(s) && k <= N
    requires forall r :: k <= r < N ==> s.a[r][r] != 0.0
    ensures |x| == N
    decreases N - k
  {
    if k == N then Zeros()
    else
      var x := BackSolveFrom(s, k + 1);
      x[k := Quot(s.b[k] - Sum(s.a[k], x, k + 1, N), s.a[k][k])]
  }

  predicate UpperTriangular(a: Matrix)
    requires IsSquare(a)
  {
    forall r, j :: 0 <= j < r < N ==> a[r][j] == 0.0
  }

  predicate NonZeroDiagonal(a: Matrix)
    requires IsSquare(a)
  {
    forall r :: 0 <= r < N ==> a[r][r] != 0.0
  }

  /** Gaussian elimination then back-substitution. */
  function Solve(s: System): (x: seq<real>)
    requires WellFormed(s) && Solvable(s)
    ensures |x| == N
  {
    var u := Eliminated(s, N).value;
    ForwardPhaseResult(s);
    BackSolveFrom(u, 0)
  }

  // ---------------------------------------------------------------------
  // Sums
  // ---------------------------------------------------------------------

  lemma {:induction false} SumSplit(u: seq<real>, v: seq<real>, lo: nat, m: nat, hi: nat)
    requires lo <= m <= hi <= |u| && hi <= |v|
    ensures Sum(u, v, lo, hi) == Sum(u, v, lo, m) + Sum(u, v, m, hi)
    decreases hi - m
  {
    if hi > m {
      SumSplit(u, v, lo, m, hi - 1);
    }
  }

  lemma {:induction false} SumZero(u: seq<real>, v: seq<real>, lo: nat, hi: nat)
    requires lo <= hi <= |u| && hi <= |v|
    requires forall j :: lo <= j < hi ==> u[j] == 0.0
    ensures Sum(u, v, lo, hi) == 0.0
    decreases hi - lo
  {
    if hi > lo {
      SumZero(u, v, lo, hi - 1);
    }
  }

  lemma {:induction false} SumCongruent(u: seq<real>, v: seq<real>, u': seq<real>, v': seq<real>, lo: nat, hi: nat)
    requires lo <= hi <= |u| && hi <= |v| && hi <= |u'| && hi <= |v'|
    requires forall j :: lo <= j < hi ==> u[j] == u'[j] && v[j] == v'[j]
    ensures Sum(u, v, lo, hi) == Sum(u', v', lo, hi)
    decreases hi - lo
  {
    if hi > lo {
      SumCongruent(u, v, u', v', lo, hi - 1);
    }
  }

  /** Sums are linear in the first argument. */
  lemma {:induction false} SumLinear(u: seq<real>, w: seq<real>, c: real, z: seq<real>, v: seq<real>, lo: nat, hi: nat)
    requires lo <= hi <= |u| && |u| == |w| == |z| && hi <= |v|
    requires forall j :: lo <= j < hi ==> z[j] == u[j] + Scale(c, w[j])
    ensures Sum(z, v, lo, hi) == Sum(u, v, lo, hi) + Scale(c, Sum(w, v, lo, hi))
    decreases hi - lo
  {
    if hi > lo {
      SumLinear(u, w, c, z, v, lo, hi - 1);
      assert z[hi - 1] * v[hi - 1] == u[hi - 1] * v[hi - 1] + c * (w[hi - 1] * v[hi - 1]);
      assert Scale(c, Sum(w, v, lo, hi)) == Scale(c, Sum(w, v, lo, hi - 1)) + c * (w[hi - 1] * v[hi - 1]);
    }
  }

  // ---------------------------------------------------------------------
  // Pivot choice
  // ---------------------------------------------------------------------

  lemma {:induction false} PivotScanFirstMax(a: Matrix, i: nat, k: nat, best: nat)
    requires IsSquare(a) && i < k <= N && i <= best < k
    requires forall j :: i <= j < k ==> Abs(a[j][i]) <= Abs(a[best][i])
    requires forall j :: i <= j < best ==> Abs(a[j][i]) < Abs(a[best][i])
    ensures var m := PivotScan(a, i, k, best);
      && i <= m < N
      && (forall j :: i <= j < N ==> Abs(a[j][i]) <= Abs(a[m][i]))
      && (forall j :: i <= j < m ==> Abs(a[j][i]) < Abs(a[m][i]))
    decreases N - k
  {
    if k < N {
      if Abs(a[k][i]) > Abs(a[best][i]) {
        PivotScanFirstMax(a, i, k + 1, k);
      } else {
        PivotScanFirstMax(a, i, k + 1, best);
      }
    }
  }

  /**
   * Partial pivoting: the chosen row has the largest |a[k][i]| over k >= i,
   * and every earlier candidate is strictly smaller (the first maximum wins).
   */
  lemma PivotRowIsFirstMax(a: Matrix, i: nat)
    requires IsSquare(a) && i < N
    ensures var m := PivotRow(a, i);
      && i <= m < N
      && (forall j :: i <= j < N ==> Abs(a[j][i]) <= Abs(a[m][i]))
      && (forall j :: i <= j < m ==> Abs(a[j][i]) < Abs(a[m][i]))
  {
    PivotScanFirstMax(a, i, i + 1, i);
  }

  // ---------------------------------------------------------------------
  // Forward phase
  // ---------------------------------------------------------------------

  /** Below the diagonal, columns 0..i-1 hold only zeros. */
  predicate ZeroBelowDiagonal(a: Matrix, i: nat)
    requires IsSquare(a)
  {
    forall r, j :: 0 <= j < i && j < r < N ==> a[r][j] == 0.0
  }

  /** When columns before i are already cleared, the tail swap is a full row swap. */
  lemma SwapIsRowExchange(s: System, i: nat, m: nat)
    requires WellFormed(s) && i <= m < N && ZeroBelowDiagonal(s.a, i)
    ensures var t := Swapped(s, i, m);
      && t.a[i] == s.a[m] && t.b[i] == s.b[m]
      && t.a[m] == s.a[i] && t.b[m] == s.b[i]
      && (forall r :: 0 <= r < N && r != i && r != m ==> t.a[r] == s.a[r] && t.b[r] == s.b[r])
  {
    var t := Swapped(s, i, m);
    assert t.a[i] == SwappedRow(s, i, m, i) == SwapTail(s.a[i], s.a[m], i);
    assert m != i ==> t.a[m] == SwappedRow(s, i, m, m) == SwapTail(s.a[m], s.a[i], i);
    assert t.a[i] == s.a[m] by {
      forall c | 0 <= c < N ensures t.a[i][c] == s.a[m][c] {
        if c < i && m != i {
          assert s.a[i][c] == 0.0 && s.a[m][c] == 0.0;
        }
      }
    }
    assert t.a[m] == s.a[i] by {
      forall c | 0 <= c < N ensures t.a[m][c] == s.a[i][c] {
        if c < i && m != i {
          assert s.a[i][c] == 0.0 && s.a[m][c] == 0.0;
        }
      }
    }
  }

  /** A row exchange keeps every solution. */
  lemma SwapKeepsSolutions(s: System, i: nat, m: nat, h: seq<real>)
    requires WellFormed(s) && i <= m < N && ZeroBelowDiagonal(s.a, i)
    requires Satisfies(Swapped(s, i, m), h)
    ensures Satisfies(s, h)
  {
    var t := Swapped(s, i, m);
    SwapIsRowExchange(s, i, m);
    forall r | 0 <= r < N ensures Dot(s.a[r], h) == s.b[r] {
      if r == i {
        assert Dot(t.a[m], h) == t.b[m];
      } else if r == m {
        assert Dot(t.a[i], h) == t.b[i];
      } else {
        assert Dot(t.a[r], h) == t.b[r];
      }
    }
  }

  /** Dot products are linear in the row. */
  lemma DotLinear(u: seq<real>, w: seq<real>, c: real, z: seq<real>, h: seq<real>)
    requires |u| == N && |w| == N && |z| == N && |h| == N
    requires forall j :: 0 <= j < N ==> z[j] == u[j] + Scale(c, w[j])
    ensures Dot(z, h) == Dot(u, h) + Scale(c, Dot(w, h))
  {
    SumLinear(u, w, c, z, h, 0, |u|);
  }

  /** Entries 0..i-1 of the row are zero. */
  predicate ZeroBefore(row: seq<real>, i: nat)
    requires i <= |row|
  {
    forall j :: 0 <= j < i ==> row[j] == 0.0
  }

  /** Outside the cleared columns, an eliminated row is the old row plus c times the pivot row. */
  lemma EliminatedRowIsCombination(rk: seq<real>, ri: seq<real>, i: nat, c: real)
    requires |rk| == N && |ri| == N && i < N
    requires ZeroBefore(rk, i) && ZeroBefore(ri, i)
    requires rk[i] + Scale(c, ri[i]) == 0.0
    ensures forall j :: 0 <= j < N ==> EliminatedRow(rk, ri, i, c)[j] == rk[j] + Scale(c, ri[j])
  {
    var z := EliminatedRow(rk, ri, i, c);
    forall j | 0 <= j < N ensures z[j] == rk[j] + Scale(c, ri[j]) {
      if j < i {
        assert rk[j] == 0.0 && ri[j] == 0.0;
      }
    }
  }

  /** An eliminated row's dot products combine those of the old row and the pivot row. */
  lemma EliminatedRowDot(rk: seq<real>, ri: seq<real>, i: nat, c: real, h: seq<real>)
    requires |rk| == N && |ri| == N && |h| == N && i < N
    requires ZeroBefore(rk, i) && ZeroBefore(ri, i)
    requires rk[i] + Scale(c, ri[i]) == 0.0
    ensures Dot(EliminatedRow(rk, ri, i, c), h) == Dot(rk, h) + Scale(c, Dot(ri, h))
  {
    EliminatedRowIsCombination(rk, ri, i, c);
    DotLinear(rk, ri, c, EliminatedRow(rk, ri, i, c), h);
  }

  /** The multiplier clears the entry below the pivot. */
  lemma MultiplierClears(q: real, p: real, c: real)
    requires p != 0.0 && c == Quot(-q, p)
    ensures q + Scale(c, p) == 0.0
  {
    assert c * p == -q;
  }

  /** Equation k of the eliminated system and the pivot equation give back equation k. */
  lemma EliminatedEquation(rk: seq<real>, ri: seq<real>, i: nat, c: real, bk: real, bi: real,
                           ek: seq<real>, ebk: real, h: seq<real>)
    requires |rk| == N && |ri| == N && |h| == N && i < N
    requires ZeroBefore(rk, i) && ZeroBefore(ri, i)
    requires rk[i] + Scale(c, ri[i]) == 0.0
    requires ek == EliminatedRow(rk, ri, i, c) && ebk == bk + Scale(c, bi)
    requires Dot(ri, h) == bi && Dot(ek, h) == ebk
    ensures Dot(rk, h) == bk
  {
    EliminatedRowDot(rk, ri, i, c, h);
  }

  /** Each multiplier clears the entry of its row below the pivot. */
  predicate Clears(s: System, i: nat, m: seq<real>)
    requires WellFormed(s) && i < N && |m| == N
  {
    forall k :: i < k < N ==> s.a[k][i] + Scale(m[k], s.a[i][i]) == 0.0
  }

  lemma MultipliersClear(s: System, i: nat)
    requires WellFormed(s) && i < N && s.a[i][i] != 0.0
    ensures Clears(s, i, Multipliers(s, i))
  {
    var m := Multipliers(s, i);
    forall k | i < k < N ensures s.a[k][i] + Scale(m[k], s.a[i][i]) == 0.0 {
      MultiplierClears(s.a[k][i], s.a[i][i], m[k]);
    }
  }

  /** Zeroing below the pivot adds a multiple of the pivot row, so solutions are kept. */
  lemma EliminationKeepsSolutions(s: System, i: nat, m: seq<real>, h: seq<real>)
    requires WellFormed(s) && i < N && |m| == N && Clears(s, i, m)
    requires forall r, j :: 0 <= j < i && i <= r < N ==> s.a[r][j] == 0.0
    requires Satisfies(EliminateWith(s, i, m), h)
    ensures Satisfies(s, h)
  {
    var t := EliminateWith(s, i, m);
    forall r | 0 <= r <= i ensures Dot(s.a[r], h) == s.b[r] {
      assert t.a[r] == s.a[r] && t.b[r] == s.b[r];
      assert Dot(t.a[r], h) == t.b[r];
    }
    forall k | i < k < N ensures Dot(s.a[k], h) == s.b[k] {
      assert Dot(t.a[k], h) == t.b[k];
      assert ZeroBefore(s.a[k], i) && ZeroBefore(s.a[i], i);
      EliminationKeepsEquation(s, i, m, k, h);
    }
  }

  /** Equation k below the pivot holds again once the pivot equation and eliminated equation k hold. */
  lemma EliminationKeepsEquation(s: System, i: nat, m: seq<real>, k: nat, h: seq<real>)
    requires WellFormed(s) && i < k < N && |m| == N && |h| == N
    requires s.a[k][i] + Scale(m[k], s.a[i][i]) == 0.0
    requires ZeroBefore(s.a[k], i) && ZeroBefore(s.a[i], i)
    requires Dot(s.a[i], h) == s.b[i]
    requires Dot(EliminateWith(s, i, m).a[k], h) == EliminateWith(s, i, m).b[k]
    ensures Dot(s.a[k], h) == s.b[k]
  {
    var t := EliminateWith(s, i, m);
    EliminatedEquation(s.a[k], s.a[i], i, m[k], s.b[k], s.b[i], t.a[k], t.b[k], h);
  }

  /** What one step establishes about the cleared columns, the finished rows and the solutions. */
  lemma StepFacts(s: System, i: nat)
    requires WellFormed(s) && i < N && ZeroBelowDiagonal(s.a, i) && Step(s, i).Some?
    ensures var t := Step(s, i).value;
      && ZeroBelowDiagonal(t.a, i + 1)
      && t.a[i][i] != 0.0
      && (forall r :: 0 <= r < i ==> t.a[r] == s.a[r])
      && (forall h :: Satisfies(t, h) ==> Satisfies(s, h))
  {
    var m := PivotRow(s.a, i);
    PivotRowIsFirstMax(s.a, i);
    var w := Swapped(s, i, m);
    SwapIsRowExchange(s, i, m);
    var t := EliminateBelow(w, i);
    assert ZeroBelowDiagonal(w.a, i) by {
      forall r, j | 0 <= j < i && j < r < N ensures w.a[r][j] == 0.0 {
        if r == i {
          assert w.a[r] == s.a[m];
        } else if r == m {
          assert w.a[r] == s.a[i];
        }
      }
    }
    MultipliersClear(w, i);
    forall h | Satisfies(t, h) ensures Satisfies(s, h) {
      EliminationKeepsSolutions(w, i, Multipliers(w, i), h);
      SwapKeepsSolutions(s, i, m, h);
    }
  }

  /** Facts about the state after i forward steps. */
  lemma {:induction false} EliminatedFacts(s: System, i: nat)
    requires WellFormed(s) && i <= N && Eliminated(s, i).Some?
    ensures var t := Eliminated(s, i).value;
      && ZeroBelowDiagonal(t.a, i)
      && (forall r :: 0 <= r < i ==> t.a[r][r] != 0.0)
      && (forall h :: Satisfies(t, h) ==> Satisfies(s, h))
  {
    if i > 0 {
      EliminatedFacts(s, i - 1);
      var p := Eliminated(s, i - 1).value;
      StepFacts(p, i - 1);
    }
  }

  /** Earlier stages of a solvable system exist too. */
  lemma {:induction false} EliminatedPrefix(s: System, i: nat, j: nat)
    requires WellFormed(s) && i <= j <= N && Eliminated(s, j).Some?
    ensures Eliminated(s, i).Some?
    decreases j - i
  {
    if i < j {
      EliminatedPrefix(s, i, j - 1);
    }
  }

  /** The forward phase leaves an upper-triangular system with a non-zero diagonal and no new solutions. */
  lemma ForwardPhaseResult(s: System)
    requires WellFormed(s) && Solvable(s)
    ensures var u := Eliminated(s, N).value;
      && UpperTriangular(u.a) && NonZeroDiagonal(u.a)
      && (forall h :: Satisfies(u, h) ==> Satisfies(s, h))
  {
    EliminatedFacts(s, N);
  }

  // ---------------------------------------------------------------------
  // Back-substitution is correct
  // ---------------------------------------------------------------------

  /** Entries at index j >= k' are final once row k' has been solved. */
  lemma {:induction false} BackSolveStable(s: System, k: nat, k': nat, j: nat)
    requires WellFormed(s) && k <= k' <= j < N
    requires forall r :: k <= r < N ==> s.a[r][r] != 0.0
    ensures BackSolveFrom(s, k)[j] == BackSolveFrom(s, k')[j]
    decreases k' - k
  {
    if k < k' {
      BackSolveStable(s, k + 1, k', j);
    }
  }

  /** A row that is zero before column r contributes only from column r on. */
  lemma DotFromColumn(row: seq<real>, x: seq<real>, r: nat)
    requires |row| == N && |x| == N && r < N
    requires forall j :: 0 <= j < r ==> row[j] == 0.0
    ensures Dot(row, x) == Scale(row[r], x[r]) + Sum(row, x, r + 1, N)
  {
    SumSplit(row, x, 0, r, N);
    SumSplit(row, x, r, r + 1, N);
    SumZero(row, x, 0, r);
  }

  lemma DivSolves(q: real, b: real, rest: real, xr: real)
    requires q != 0.0 && xr == Quot(b - rest, q)
    ensures Scale(q, xr) + rest == b
  {
    assert q * xr == b - rest;
  }

  /** Row r reads `a[r][r] * x[r] + (a[r][r+1] * x[r+1] + ... ) == b[r]`. */
  predicate BackSolvedRow(s: System, x: seq<real>, r: nat)
    requires WellFormed(s) && |x| == N && r < N
  {
    Scale(s.a[r][r], x[r]) + Sum(s.a[r], x, r + 1, N) == s.b[r]
  }

  /** Entry r of the back-substituted vector, in terms of the entries after it. */
  lemma BackSolveEntry(s: System, r: nat)
    requires WellFormed(s) && NonZeroDiagonal(s.a) && r < N
    ensures var x := BackSolveFrom(s, 0);
      x[r] == Quot(s.b[r] - Sum(s.a[r], x, r + 1, N), s.a[r][r])
  {
    var x := BackSolveFrom(s, 0);
    var y := BackSolveFrom(s, r + 1);
    forall j | r < j < N ensures x[j] == y[j] {
      BackSolveStable(s, 0, r + 1, j);
    }
    BackSolveStable(s, 0, r, r);
    SumCongruent(s.a[r], x, s.a[r], y, r + 1, N);
  }

  /** Every row of the back-substituted vector is solved. */
  lemma BackSolveRows(s: System)
    requires WellFormed(s) && NonZeroDiagonal(s.a)
    ensures forall r :: 0 <= r < N ==> BackSolvedRow(s, BackSolveFrom(s, 0), r)
  {
    var x := BackSolveFrom(s, 0);
    forall r | 0 <= r < N ensures BackSolvedRow(s, x, r) {
      BackSolveEntry(s, r);
      EntrySolvesRow(s, x, r);
    }
  }

  lemma EntrySolvesRow(s: System, x: seq<real>, r: nat)
    requires WellFormed(s) && |x| == N && r < N && s.a[r][r] != 0.0
    requires x[r] == Quot(s.b[r] - Sum(s.a[r], x, r + 1, N), s.a[r][r])
    ensures BackSolvedRow(s, x, r)
  {
    DivSolves(s.a[r][r], s.b[r], Sum(s.a[r], x, r + 1, N), x[r]);
  }

  /** In an upper-triangular system, solving each row from the diagonal on solves the equation. */
  lemma BackSolvedSatisfies(s: System, x: seq<real>)
    requires WellFormed(s) && UpperTriangular(s.a) && |x| == N
    requires forall r :: 0 <= r < N ==> BackSolvedRow(s, x, r)
    ensures Satisfies(s, x)
  {
    forall r | 0 <= r < N ensures Dot(s.a[r], x) == s.b[r] {
      assert BackSolvedRow(s, x, r);
      DotFromColumn(s.a[r], x, r);
    }
  }

  /** Back-substitution solves an upper-triangular system with a non-zero diagonal. */
  lemma BackSolveSolves(s: System)
    requires WellFormed(s) && UpperTriangular(s.a) && NonZeroDiagonal(s.a)
    ensures Satisfies(s, BackSolveFrom(s, 0))
  {
    BackSolveRows(s);
    BackSolvedSatisfies(s, BackSolveFrom(s, 0));
  }

  /** The solver's output solves the original system. */
  lemma SolveSolves(s: System)
    requires WellFormed(s) && Solvable(s)
    ensures Satisfies(s, Solve(s))
  {
    ForwardPhaseResult(s);
    var u := Eliminated(s, N).value;
    BackSolveSolves(u);
  }
}
