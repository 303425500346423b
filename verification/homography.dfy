/**
 * The projective map that pins a wall's content to four corner points.
 * `SolveHomography` builds the 8x8 system from four point pairs in arrays and
 * runs elimination with partial pivoting and back-substitution in place; it is
 * proved to compute `Solve` of module LinearSystem, so the map it returns
 * sends every source corner to its destination. `Apply` evaluates the map and
 * `CssMatrix` packs it into the 16 arguments of a CSS `matrix3d()`.
 */
module Homography {
  import opened Numeric
  import opened LinearSystem

  datatype Point = Point(x: real, y: real)

  // ---------------------------------------------------------------------
  // The linear system of four correspondences
  // ---------------------------------------------------------------------

  /**
   * The equation contributed by the pair p -> q: the u-row when `second` is
   * false, the v-row otherwise.
   */
  function EquationRow(p: Point, q: Point, second: bool): (row: seq<real>)
    ensures |row| == N
  {
    if !second then [p.x, p.y, 1.0, 0.0, 0.0, 0.0, -p.x * q.x, -p.y * q.x]
    else [0.0, 0.0, 0.0, p.x, p.y, 1.0, -p.x * q.y, -p.y * q.y]
  }

  /** Rows 2i and 2i+1 come from pair i; the right-hand side holds u then v. */
  function SystemOf(src: seq<Point>, dst: seq<Point>): (s: System)
    requires |src| >= 4 && |dst| >= 4
    ensures WellFormed(s)
  {
    System(
      seq(N, r requires 0 <= r < N => EquationRow(src[r / 2], dst[r / 2], r % 2 == 1)),
      seq(N, r requires 0 <= r < N => if r % 2 == 0 then dst[r / 2].x else dst[r / 2].y))
  }

  /** The unknowns h0..h7 laid out as the 3x3 matrix, with the last entry fixed to 1. */
  function Matrix3(h: seq<real>): (m: seq<seq<real>>)
    requires |h| == N
    ensures Is3x3(m)
  {
    [[h[0], h[1], h[2]], [h[3], h[4], h[5]], [h[6], h[7], 1.0]]
  }

  predicate Is3x3(m: seq<seq<real>>) {
    |m| == 3 && |m[0]| == 3 && |m[1]| == 3 && |m[2]| == 3
  }

  // ---------------------------------------------------------------------
  // The projective map
  // ---------------------------------------------------------------------

  /** The homogeneous coordinate w of the image of p. */
  function Weight(m: seq<seq<real>>, p: Point): real
    requires Is3x3(m)
  {
    m[2][0] * p.x + m[2][1] * p.y + m[2][2]
  }

  function NumeratorX(m: seq<seq<real>>, p: Point): real
    requires Is3x3(m)
  {
    m[0][0] * p.x + m[0][1] * p.y + m[0][2]
  }

  function NumeratorY(m: seq<seq<real>>, p: Point): real
    requires Is3x3(m)
  {
    m[1][0] * p.x + m[1][1] * p.y + m[1][2]
  }

  /** `m` sends p to q in homogeneous coordinates: (nx, ny, w) is proportional to (q.x, q.y, 1). */
  predicate MapsHomogeneously(m: seq<seq<real>>, p: Point, q: Point)
    requires Is3x3(m)
  {
    MapsX(m, p, q) && MapsY(m, p, q)
  }

  predicate MapsX(m: seq<seq<real>>, p: Point, q: Point)
    requires Is3x3(m)
  {
    NumeratorX(m, p) == q.x * Weight(m, p)
  }

  predicate MapsY(m: seq<seq<real>>, p: Point, q: Point)
    requires Is3x3(m)
  {
    NumeratorY(m, p) == q.y * Weight(m, p)
  }

  /** The image of p under m, dehomogenised. `applyHomography` divides by w unchecked, so w must not be 0. */
  function Apply(m: seq<seq<real>>, p: Point): (q: Point)
    requires Is3x3(m) && Weight(m, p) != 0.0
    ensures MapsHomogeneously(m, p, q)
  {
    Point(NumeratorX(m, p) / Weight(m, p), NumeratorY(m, p) / Weight(m, p))
  }

  /** Where w is non-zero, Apply(m, p) == q exactly when m maps p to q homogeneously. */
  lemma ApplyIffHomogeneous(m: seq<seq<real>>, p: Point, q: Point)
    requires Is3x3(m) && Weight(m, p) != 0.0
    ensures Apply(m, p) == q <==> MapsHomogeneously(m, p, q)
  {
    var w := Weight(m, p);
    if MapsHomogeneously(m, p, q) {
      DivideBack(NumeratorX(m, p), q.x, w);
      DivideBack(NumeratorY(m, p), q.y, w);
    }
  }

  lemma DivideBack(n: real, c: real, w: real)
    requires w != 0.0 && n == c * w
    ensures n / w == c
  {
  }

  // ---------------------------------------------------------------------
  // What the equations mean
  // ---------------------------------------------------------------------

  /** The dot product of two 8-vectors written out. */
  lemma DotEight(u: seq<real>, v: seq<real>)
    requires |u| == N && |v| == N
    ensures Dot(u, v) == u[0] * v[0] + u[1] * v[1] + u[2] * v[2] + u[3] * v[3]
      + u[4] * v[4] + u[5] * v[5] + u[6] * v[6] + u[7] * v[7]
  {
    assert Sum(u, v, 0, 1) == u[0] * v[0];
    assert Sum(u, v, 0, 2) == Sum(u, v, 0, 1) + u[1] * v[1];
    assert Sum(u, v, 0, 3) == Sum(u, v, 0, 2) + u[2] * v[2];
    assert Sum(u, v, 0, 4) == Sum(u, v, 0, 3) + u[3] * v[3];
    assert Sum(u, v, 0, 5) == Sum(u, v, 0, 4) + u[4] * v[4];
    assert Sum(u, v, 0, 6) == Sum(u, v, 0, 5) + u[5] * v[5];
    assert Sum(u, v, 0, 7) == Sum(u, v, 0, 6) + u[6] * v[6];
  }

  /** The u-row of pair p -> q holds for h exactly when Matrix3(h) maps p's x-coordinate to q.x. */
  lemma FirstRowMeaning(p: Point, q: Point, h: seq<real>)
    requires |h| == N
    ensures Dot(EquationRow(p, q, false), h) == q.x <==> MapsX(Matrix3(h), p, q)
  {
    var row := EquationRow(p, q, false);
    DotEight(row, h);
    var m := Matrix3(h);
    assert Dot(row, h) == p.x * h[0] + p.y * h[1] + h[2] - q.x * (p.x * h[6]) - q.x * (p.y * h[7]);
    assert q.x * Weight(m, p) == q.x * (h[6] * p.x) + q.x * (h[7] * p.y) + q.x;
  }

  /** The v-row of pair p -> q holds for h exactly when Matrix3(h) maps p's y-coordinate to q.y. */
  lemma SecondRowMeaning(p: Point, q: Point, h: seq<real>)
    requires |h| == N
    ensures Dot(EquationRow(p, q, true), h) == q.y <==> MapsY(Matrix3(h), p, q)
  {
    var row := EquationRow(p, q, true);
    DotEight(row, h);
    var m := Matrix3(h);
    assert Dot(row, h) == p.x * h[3] + p.y * h[4] + h[5] - q.y * (p.x * h[6]) - q.y * (p.y * h[7]);
    assert q.y * Weight(m, p) == q.y * (h[6] * p.x) + q.y * (h[7] * p.y) + q.y;
  }

  /** Rows 2i and 2i+1 of the system come from pair i. */
  lemma SystemRows(src: seq<Point>, dst: seq<Point>, i: nat)
    requires |src| >= 4 && |dst| >= 4 && i < 4
    ensures var s := SystemOf(src, dst);
      && s.a[2 * i] == EquationRow(src[i], dst[i], false) && s.b[2 * i] == dst[i].x
      && s.a[2 * i + 1] == EquationRow(src[i], dst[i], true) && s.b[2 * i + 1] == dst[i].y
  {
    assert (2 * i) / 2 == i && (2 * i) % 2 == 0;
    assert (2 * i + 1) / 2 == i && (2 * i + 1) % 2 == 1;
  }

  /** The two equations of pair i hold exactly when Matrix3(h) maps src[i] to dst[i]. */
  lemma PairMeaning(src: seq<Point>, dst: seq<Point>, h: seq<real>, i: nat)
    requires |src| >= 4 && |dst| >= 4 && |h| == N && i < 4
    ensures var s := SystemOf(src, dst);
      (Dot(s.a[2 * i], h) == s.b[2 * i] && Dot(s.a[2 * i + 1], h) == s.b[2 * i + 1])
      <==> MapsHomogeneously(Matrix3(h), src[i], dst[i])
  {
    SystemRows(src, dst, i);
    FirstRowMeaning(src[i], dst[i], h);
    SecondRowMeaning(src[i], dst[i], h);
  }

  /** Any solution of the system sends each of the four source points to its destination. */
  lemma SolutionMapsCorners(src: seq<Point>, dst: seq<Point>, h: seq<real>)
    requires |src| >= 4 && |dst| >= 4
    requires Satisfies(SystemOf(src, dst), h)
    ensures forall i :: 0 <= i < 4 ==> MapsHomogeneously(Matrix3(h), src[i], dst[i])
  {
    var s := SystemOf(src, dst);
    forall i | 0 <= i < 4 ensures MapsHomogeneously(Matrix3(h), src[i], dst[i]) {
      assert Dot(s.a[2 * i], h) == s.b[2 * i];
      assert Dot(s.a[2 * i + 1], h) == s.b[2 * i + 1];
      PairMeaning(src, dst, h, i);
    }
  }

  /** Conversely, a map that sends the four points to their destinations solves the system. */
  lemma CornersGiveSolution(src: seq<Point>, dst: seq<Point>, h: seq<real>)
    requires |src| >= 4 && |dst| >= 4 && |h| == N
    requires forall i :: 0 <= i < 4 ==> MapsHomogeneously(Matrix3(h), src[i], dst[i])
    ensures Satisfies(SystemOf(src, dst), h)
  {
    var s := SystemOf(src, dst);
    forall r | 0 <= r < N ensures Dot(s.a[r], h) == s.b[r] {
      var i := r / 2;
      PairMeaning(src, dst, h, i);
      assert r == 2 * i || r == 2 * i + 1;
    }
  }

  // ---------------------------------------------------------------------
  // The in-place solver
  // ---------------------------------------------------------------------

  /** The arrays hold the system s. */
  predicate Holds(a: array2<real>, b: array<real>, s: System)
    reads a, b
  {
    && a.Length0 == N && a.Length1 == N && b.Length == N && WellFormed(s)
    && (forall r, c :: 0 <= r < N && 0 <= c < N ==> a[r, c] == s.a[r][c])
    && (forall r :: 0 <= r < N ==> b[r] == s.b[r])
  }

  /** Writes `row` into row r of `a`. */
  method StoreRow(a: array2<real>, r: nat, row: seq<real>)
    requires a.Length0 == N && a.Length1 == N && r < N && |row| == N
    modifies a
    ensures forall c :: 0 <= c < N ==> a[r, c] == row[c]
    ensures forall r', c :: 0 <= r' < N && r' != r && 0 <= c < N ==> a[r', c] == old(a[r', c])
  {
    for c := 0 to N
      invariant forall c' :: 0 <= c' < c ==> a[r, c'] == row[c']
      invariant forall r', c' :: 0 <= r' < N && r' != r && 0 <= c' < N ==> a[r', c'] == old(a[r', c'])
    {
      a[r, c] := row[c];
    }
  }

  /** Fills the arrays with the two rows of each of the four correspondences, in order. */
  method BuildSystem(src: seq<Point>, dst: seq<Point>) returns (a: array2<real>, b: array<real>)
    requires |src| >= 4 && |dst| >= 4
    ensures fresh(a) && fresh(b) && Holds(a, b, SystemOf(src, dst))
  {
    ghost var s := SystemOf(src, dst);
    a := new real[N, N];
    b := new real[N];
    for i := 0 to 4
      invariant forall r, c :: 0 <= r < 2 * i && 0 <= c < N ==> a[r, c] == s.a[r][c]
      invariant forall r :: 0 <= r < 2 * i ==> b[r] == s.b[r]
    {
      SystemRows(src, dst, i);
      StorePair(a, b, i, src[i], dst[i]);
      forall r, c | 0 <= r < 2 * (i + 1) && 0 <= c < N
        ensures a[r, c] == s.a[r][c]
      {
        if r == 2 * i {
          assert a[r, c] == EquationRow(src[i], dst[i], false)[c];
        } else if r == 2 * i + 1 {
          assert a[r, c] == EquationRow(src[i], dst[i], true)[c];
        }
      }
    }
  }

  /** Pushes the u-row and the v-row of the pair p -> q as rows 2i and 2i+1. */
  method StorePair(a: array2<real>, b: array<real>, i: nat, p: Point, q: Point)
    requires a.Length0 == N && a.Length1 == N && b.Length == N && i < 4
    modifies a, b
    ensures forall c :: 0 <= c < N ==>
      a[2 * i, c] == EquationRow(p, q, false)[c] && a[2 * i + 1, c] == EquationRow(p, q, true)[c]
    ensures b[2 * i] == q.x && b[2 * i + 1] == q.y
    ensures forall r, c :: 0 <= r < 2 * i && 0 <= c < N ==> a[r, c] == old(a[r, c])
    ensures forall r :: 0 <= r < 2 * i ==> b[r] == old(b[r])
  {
    StoreRow(a, 2 * i, EquationRow(p, q, false));
    StoreRow(a, 2 * i + 1, EquationRow(p, q, true));
    b[2 * i] := q.x;
    b[2 * i + 1] := q.y;
  }

  /** Scans column i from row i down and returns the first row of largest magnitude. */
  method SelectPivot(a: array2<real>, b: array<real>, i: nat, ghost s: System) returns (maxRow: nat)
    requires Holds(a, b, s) && i < N
    ensures maxRow == PivotRow(s.a, i)
  {
    var maxEl := Abs(a[i, i]);
    maxRow := i;
    for k := i + 1 to N
      invariant i <= maxRow < k
      invariant maxEl == Abs(s.a[maxRow][i])
      invariant PivotScan(s.a, i, k, maxRow) == PivotRow(s.a, i)
    {
      if Abs(a[k, i]) > maxEl {
        maxEl := Abs(a[k, i]);
        maxRow := k;
      }
    }
  }

  /** Exchanges rows i and m of `a` in columns i..N-1, and entries i and m of `b`. */
  method SwapRows(a: array2<real>, b: array<real>, i: nat, m: nat, ghost s: System)
    requires Holds(a, b, s) && i <= m < N
    modifies a, b
    ensures Holds(a, b, Swapped(s, i, m))
  {
    ghost var t := Swapped(s, i, m);
    for k := i to N
      invariant forall r, c :: 0 <= r < N && 0 <= c < N ==> a[r, c] == (if c < k then t.a[r][c] else s.a[r][c])
      invariant forall r :: 0 <= r < N ==> b[r] == s.b[r]
    {
      var tmp := a[m, k];
      a[m, k] := a[i, k];
      a[i, k] := tmp;
    }
    var tmp := b[m];
    b[m] := b[i];
    b[i] := tmp;
  }

  /** Adds c times row i to row k in columns i..N-1, writing an exact 0 in column i. */
  method CombineRow(a: array2<real>, i: nat, k: nat, c: real, ghost rk: seq<real>, ghost ri: seq<real>)
    requires a.Length0 == N && a.Length1 == N && i < k < N && |rk| == N && |ri| == N
    requires forall j :: 0 <= j < N ==> a[k, j] == rk[j] && a[i, j] == ri[j]
    modifies a
    ensures forall j :: 0 <= j < N ==> a[k, j] == EliminatedRow(rk, ri, i, c)[j]
    ensures forall r, j :: 0 <= r < N && r != k && 0 <= j < N ==> a[r, j] == old(a[r, j])
  {
    for j := i to N
      invariant forall j' :: 0 <= j' < N ==> a[k, j'] == if j' < j then EliminatedRow(rk, ri, i, c)[j'] else rk[j']
      invariant forall r, j' :: 0 <= r < N && r != k && 0 <= j' < N ==> a[r, j'] == old(a[r, j'])
    {
      if i == j {
        a[k, j] := 0.0;
      } else {
        assert c * a[i, j] == Scale(c, a[i, j]);
        a[k, j] := a[k, j] + c * a[i, j];
      }
    }
  }

  /** Clears column i below the pivot by adding multiples of row i. */
  method ClearBelow(a: array2<real>, b: array<real>, i: nat, ghost s: System)
    requires Holds(a, b, s) && i < N && s.a[i][i] != 0.0
    modifies a, b
    ensures Holds(a, b, EliminateBelow(s, i))
  {
    ghost var t := EliminateBelow(s, i);
    for k := i + 1 to N
      invariant forall r, c :: 0 <= r < N && 0 <= c < N ==> a[r, c] == (if r < k then t.a[r][c] else s.a[r][c])
      invariant forall r :: 0 <= r < N ==> b[r] == (if r < k then t.b[r] else s.b[r])
    {
      var c := -a[k, i] / a[i, i];
      assert c == Quot(-a[k, i], a[i, i]);
      assert c == Multipliers(s, i)[k];
      CombineRow(a, i, k, c, s.a[k], s.a[i]);
      assert c * b[i] == Scale(c, b[i]);
      b[k] := b[k] + c * b[i];
    }
  }

  /** a[i, i+1] * x[i+1] + ... + a[i, N-1] * x[N-1], accumulated left to right. */
  method TailSum(a: array2<real>, x: array<real>, i: nat, ghost row: seq<real>) returns (sum: real)
    requires a.Length0 == N && a.Length1 == N && x.Length == N && i < N && |row| == N
    requires forall j :: 0 <= j < N ==> a[i, j] == row[j]
    ensures sum == Sum(row, x[..], i + 1, N)
  {
    sum := 0.0;
    for j := i + 1 to N
      invariant sum == Sum(row, x[..], i + 1, j)
    {
      sum := sum + a[i, j] * x[j];
    }
  }

  /** Solves the upper-triangular system in the arrays from the last row up. */
  method BackSubstitute(a: array2<real>, b: array<real>, ghost u: System) returns (x: array<real>)
    requires Holds(a, b, u) && NonZeroDiagonal(u.a)
    ensures fresh(x) && x[..] == BackSolveFrom(u, 0)
  {
    x := new real[N](_ => 0.0);
    var i := N;
    assert x[..] == Zeros();
    while i > 0
      invariant 0 <= i <= N && x.Length == N
      invariant x[..] == BackSolveFrom(u, i)
    {
      i := i - 1;
      SolveRow(a, b, x, i, u);
    }
  }

  /** Fills in unknown i from row i, the unknowns after it being already solved. */
  method SolveRow(a: array2<real>, b: array<real>, x: array<real>, i: nat, ghost u: System)
    requires Holds(a, b, u) && NonZeroDiagonal(u.a) && x.Length == N && i < N
    requires x[..] == BackSolveFrom(u, i + 1)
    modifies x
    ensures x[..] == BackSolveFrom(u, i)
  {
    assert forall j :: 0 <= j < N ==> a[i, j] == u.a[i][j];
    var sum := TailSum(a, x, i, u.a[i]);
    ghost var prev := x[..];
    ghost var q := Quot(u.b[i] - Sum(u.a[i], prev, i + 1, N), u.a[i][i]);
    x[i] := (b[i] - sum) / a[i, i];
    assert x[i] == q;
    assert x[..] == prev[i := q];
  }

  /**
   * The homography taking src[0..3] to dst[0..3]. Every pivot of the
   * elimination must be non-zero: math.js divides by it unchecked.
   */
  method SolveHomography(src: seq<Point>, dst: seq<Point>) returns (m: seq<seq<real>>)
    requires |src| >= 4 && |dst| >= 4 && Solvable(SystemOf(src, dst))
    ensures Is3x3(m) && m == Matrix3(Solve(SystemOf(src, dst)))
    ensures m[2][2] == 1.0
    ensures forall i :: 0 <= i < 4 ==> MapsHomogeneously(m, src[i], dst[i])
  {
    ghost var s := SystemOf(src, dst);
    var a, b := BuildSystem(src, dst);
    ForwardPhase(a, b, s);
    ghost var u := Eliminated(s, N).value;
    ForwardPhaseResult(s);
    var x := BackSubstitute(a, b, u);
    m := [[x[0], x[1], x[2]], [x[3], x[4], x[5]], [x[6], x[7], 1.0]];
    assert m == Matrix3(x[..]);
    SolvedMapsCorners(src, dst, x[..]);
  }

  /** The solution of the system of four correspondences sends each source point to its destination. */
  lemma SolvedMapsCorners(src: seq<Point>, dst: seq<Point>, h: seq<real>)
    requires |src| >= 4 && |dst| >= 4 && Solvable(SystemOf(src, dst)) && h == Solve(SystemOf(src, dst))
    ensures forall i :: 0 <= i < 4 ==> MapsHomogeneously(Matrix3(h), src[i], dst[i])
  {
    SolveSolves(SystemOf(src, dst));
    SolutionMapsCorners(src, dst, h);
  }

  /** Elimination with partial pivoting over all N columns, in place. */
  method ForwardPhase(a: array2<real>, b: array<real>, ghost s: System)
    requires Holds(a, b, s) && Solvable(s)
    modifies a, b
    ensures Holds(a, b, Eliminated(s, N).value)
  {
    for i := 0 to N
      invariant Eliminated(s, i).Some? && Holds(a, b, Eliminated(s, i).value)
    {
      EliminatedPrefix(s, i + 1, N);
      ghost var t := Eliminated(s, i).value;
      var maxRow := SelectPivot(a, b, i, t);
      SwapRows(a, b, i, maxRow, t);
      ClearBelow(a, b, i, Swapped(t, i, maxRow));
    }
  }

  // ---------------------------------------------------------------------
  // CSS matrix3d
  // ---------------------------------------------------------------------

  /** The 16 arguments of `matrix3d()`, column by column. */
  function CssMatrix(m: seq<seq<real>>): (args: seq<real>)
    requires Is3x3(m)
    ensures |args| == 16
  {
    [m[0][0], m[1][0], 0.0, m[2][0],
     m[0][1], m[1][1], 0.0, m[2][1],
     0.0, 0.0, 1.0, 0.0,
     m[0][2], m[1][2], 0.0, m[2][2]]
  }

  /**
   * How CSS applies `matrix3d(args)` to the column vector (x, y, z, w):
   * the arguments are the 4x4 matrix in column-major order.
   */
  function CssTransform(args: seq<real>, x: real, y: real, z: real, w: real): (r: seq<real>)
    requires |args| == 16
    ensures |r| == 4
  {
    seq(4, i requires 0 <= i < 4 => args[i] * x + args[4 + i] * y + args[8 + i] * z + args[12 + i] * w)
  }

  /** On the plane z = 0 the CSS matrix acts as m: it yields (nx, ny, 0, w). */
  lemma CssMatrixActsAsHomography(m: seq<seq<real>>, p: Point)
    requires Is3x3(m)
    ensures CssTransform(CssMatrix(m), p.x, p.y, 0.0, 1.0)
      == [NumeratorX(m, p), NumeratorY(m, p), 0.0, Weight(m, p)]
  {
    var r := CssTransform(CssMatrix(m), p.x, p.y, 0.0, 1.0);
    assert r[0] == NumeratorX(m, p);
    assert r[1] == NumeratorY(m, p);
    assert r[2] == 0.0;
    assert r[3] == Weight(m, p);
  }

  /** CSS puts p at q: after the perspective divide by the fourth coordinate, (x, y, z) is (q.x, q.y, 0). */
  predicate CssPlaces(args: seq<real>, p: Point, q: Point)
    requires |args| == 16
  {
    var c := CssTransform(args, p.x, p.y, 0.0, 1.0);
    c[0] == q.x * c[3] && c[1] == q.y * c[3] && c[2] == 0.0
  }

  /** The corners of the width x height content box, clockwise from the origin. */
  function ContentRect(width: real, height: real): (rect: seq<Point>)
    ensures |rect| == 4
  {
    [Point(0.0, 0.0), Point(width, 0.0), Point(width, height), Point(0.0, height)]
  }

  /**
   * The `matrix3d()` arguments that warp the width x height box onto dst:
   * each corner of the box lands, after the perspective divide, on its point.
   */
  method GetCssMatrix(dst: seq<Point>, width: real, height: real) returns (args: seq<real>)
    requires |dst| >= 4 && Solvable(SystemOf(ContentRect(width, height), dst))
    ensures args == CssMatrix(Matrix3(Solve(SystemOf(ContentRect(width, height), dst))))
    ensures forall i :: 0 <= i < 4 ==> CssPlaces(args, ContentRect(width, height)[i], dst[i])
  {
    var rect := ContentRect(width, height);
    var m := SolveHomography(rect, dst);
    args := CssMatrix(m);
    forall i | 0 <= i < 4 ensures CssPlaces(args, rect[i], dst[i]) {
      assert MapsHomogeneously(m, rect[i], dst[i]);
      CssPlacesImage(m, rect[i], dst[i]);
    }
  }

  /** Where m maps p to q, CSS with m's matrix3d() places p at q. */
  lemma CssPlacesImage(m: seq<seq<real>>, p: Point, q: Point)
    requires Is3x3(m) && MapsHomogeneously(m, p, q)
    ensures CssPlaces(CssMatrix(m), p, q)
  {
    CssMatrixActsAsHomography(m, p);
  }
}
