/**
 Matrices over GF(256) and the Gauss-Jordan inversion of the erasure codec.

 `GaussJordan` is the elimination as a function, column by column, with the source's choice of pivot (first
 non-zero entry at or below the diagonal) and its order of row operations; `MatrixInverse` is the source's loop
 nest and computes that function. The proof follows one invariant: a row operation never changes which vectors
 the augmented rows annihilate.
 */
module LinearAlgebra {
  import opened Results
  import opened GaloisField

  type Vector = seq<byte>
  type Matrix = seq<Vector>

  // ----- Vectors

  /** Sum of products over the common prefix of the two vectors, as zip pairs them. */
  function Dot(u: Vector, v: Vector): byte {
    if |u| == 0 || |v| == 0 then 0 else Add(Mul(u[0], v[0]), Dot(u[1..], v[1..]))
  }

  function Zeros(n: nat): Vector { seq(n, i => 0) }

  function Scale(u: Vector, c: byte): Vector { seq(|u|, i requires 0 <= i < |u| => Mul(u[i], c)) }

  /** left ^ factor * right, entry by entry. */
  function AddScaled(u: Vector, c: byte, v: Vector): Vector
    requires |u| == |v|
  {
    seq(|u|, i requires 0 <= i < |u| => Add(u[i], Mul(c, v[i])))
  }

  lemma {:induction false} DotZeros(u: Vector, v: Vector)
    requires forall i :: 0 <= i < |u| && i < |v| ==> Mul(u[i], v[i]) == 0
    ensures Dot(u, v) == 0
  {
    hide Mul, Add;
    if |u| != 0 && |v| != 0 {
      assert Mul(u[0], v[0]) == 0;
      forall i | 0 <= i < |u[1..]| && i < |v[1..]| ensures Mul(u[1..][i], v[1..][i]) == 0 {
        assert Mul(u[i + 1], v[i + 1]) == 0;
      }
      DotZeros(u[1..], v[1..]);
      AddLaws(0, 0, 0);
    }
  }

  /** One product can be taken out of the sum. */
  lemma {:induction false} DotPull(u: Vector, v: Vector, p: nat)
    requires p < |u| && p < |v|
    ensures Dot(u, v) == Add(Mul(u[p], v[p]), Dot(u[p := 0], v))
  {
    hide Mul, Add;
    var rest := Dot(u[1..], v[1..]);
    MulZeroLeft(v[0]);
    if p == 0 {
      assert u[0 := 0][1..] == u[1..];
      AddLaws(0, rest, 0);
      AddLaws(rest, 0, 0);
    } else {
      DotPull(u[1..], v[1..], p - 1);
      assert u[p := 0][1..] == u[1..][p - 1 := 0];
      var a, b, c := Mul(u[0], v[0]), Mul(u[p], v[p]), Dot(u[p := 0][1..], v[1..]);
      AddLaws(a, b, c);
      AddLaws(b, a, c);
    }
  }

  /** A sum whose products vanish away from p is the product at p. */
  lemma DotOne(u: Vector, v: Vector, p: nat)
    requires p < |u| && p < |v|
    requires forall i :: 0 <= i < |u| && i < |v| && i != p ==> Mul(u[i], v[i]) == 0
    ensures Dot(u, v) == Mul(u[p], v[p])
  {
    hide Mul, Add;
    DotPull(u, v, p);
    MulZeroLeft(v[p]);
    DotZeros(u[p := 0], v);
    AddLaws(Mul(u[p], v[p]), 0, 0);
  }

  /** A sum whose products vanish away from p and q has two terms. */
  lemma DotTwo(u: Vector, v: Vector, p: nat, q: nat)
    requires p < |u| && p < |v| && q < |u| && q < |v| && p != q
    requires forall i :: 0 <= i < |u| && i < |v| && i != p && i != q ==> Mul(u[i], v[i]) == 0
    ensures Dot(u, v) == Add(Mul(u[p], v[p]), Mul(u[q], v[q]))
  {
    hide Mul, Add;
    DotPull(u, v, p);
    MulZeroLeft(v[p]);
    DotOne(u[p := 0], v, q);
  }

  lemma {:induction false} DotScale(u: Vector, c: byte, v: Vector)
    ensures Dot(Scale(u, c), v) == Mul(Dot(u, v), c)
  {
    hide Mul, Add;
    if |u| == 0 || |v| == 0 {
      MulZeroLeft(c);
    } else {
      assert Scale(u, c)[1..] == Scale(u[1..], c);
      DotScale(u[1..], c, v[1..]);
      var p, rest := Mul(u[0], v[0]), Dot(u[1..], v[1..]);
      MulAddLeft(p, rest, c);
      MulAssociates(u[0], c, v[0]);
      MulCommutes(c, v[0]);
      MulAssociates(u[0], v[0], c);
    }
  }

  lemma {:induction false} DotAddScaled(u: Vector, c: byte, w: Vector, v: Vector)
    requires |u| == |w|
    ensures Dot(AddScaled(u, c, w), v) == Add(Dot(u, v), Mul(c, Dot(w, v)))
  {
    hide Mul, Add;
    if |u| == 0 || |v| == 0 {
      MulCommutes(c, 0);
      MulZeroLeft(c);
      AddLaws(0, 0, 0);
    } else {
      assert AddScaled(u, c, w)[1..] == AddScaled(u[1..], c, w[1..]);
      DotAddScaled(u[1..], c, w[1..], v[1..]);
      var p, q, r, s := Mul(u[0], v[0]), Mul(w[0], v[0]), Dot(u[1..], v[1..]), Dot(w[1..], v[1..]);
      MulAddLeft(u[0], Mul(c, w[0]), v[0]);
      MulAssociates(c, w[0], v[0]);
      MulAddRight(c, q, s);
      AddShuffle(p, Mul(c, q), r, Mul(c, s));
    }
  }

  lemma {:induction false} DotConcat(u: Vector, u': Vector, v: Vector, v': Vector)
    requires |u| == |v|
    ensures Dot(u + u', v + v') == Add(Dot(u, v), Dot(u', v'))
  {
    hide Mul, Add;
    if |u| == 0 {
      assert u + u' == u' && v + v' == v';
      AddLaws(Dot(u', v'), 0, 0);
    } else {
      assert (u + u')[1..] == u[1..] + u' && (v + v')[1..] == v[1..] + v';
      DotConcat(u[1..], u', v[1..], v');
      AddLaws(Mul(u[0], v[0]), Dot(u[1..], v[1..]), Dot(u', v'));
    }
  }

  // ----- Matrices

  ghost predicate IsMatrix(m: Matrix, rows: nat, cols: nat) {
    |m| == rows && forall i :: 0 <= i < rows ==> |m[i]| == cols
  }

  function UnitRow(n: nat, i: nat): Vector { seq(n, j => if i == j then 1 else 0) }

  function Apply(m: Matrix, x: Vector): Vector { seq(|m|, i requires 0 <= i < |m| => Dot(m[i], x)) }

  /** Every row of m is orthogonal to y. */
  ghost predicate Annihilates(m: Matrix, y: Vector) {
    forall i :: 0 <= i < |m| ==> Dot(m[i], y) == 0
  }

  /** Row operations keep this: two systems with the same solutions. */
  ghost predicate SameKernel(m: Matrix, m': Matrix) {
    forall y :: Annihilates(m, y) <==> Annihilates(m', y)
  }

  /** r undoes m on every vector; by `LeftInverseProduct` this is the matrix equation r * m == I. */
  ghost predicate LeftInverse(r: Matrix, m: Matrix, n: nat) {
    IsMatrix(r, n, n) && forall x | |x| == n :: Apply(r, Apply(m, x)) == x
  }

  ghost predicate NonZero(x: Vector) {
    exists i :: 0 <= i < |x| && x[i] != 0
  }

  /** A non-zero solution of m * x == 0. */
  ghost predicate KernelVector(m: Matrix, x: Vector) {
    NonZero(x) && Annihilates(m, x)
  }

  ghost predicate Invertible(m: Matrix) {
    exists r :: LeftInverse(r, m, |m|)
  }

  function Column(m: Matrix, j: nat): Vector
    requires forall i :: 0 <= i < |m| ==> j < |m[i]|
  {
    seq(|m|, i requires 0 <= i < |m| => m[i][j])
  }

  lemma DotUnit(u: Vector, n: nat, j: nat)
    requires j < n == |u|
    ensures Dot(u, UnitRow(n, j)) == u[j]
    ensures Dot(UnitRow(n, j), u) == u[j]
  {
    hide Mul, Add;
    var e := UnitRow(n, j);
    forall i | 0 <= i < n && i != j ensures Mul(u[i], e[i]) == 0 && Mul(e[i], u[i]) == 0 {
      MulZeroLeft(u[i]);
      MulCommutes(u[i], 0);
    }
    DotOne(u, e, j);
    DotOne(e, u, j);
    MulOneLeft(u[j]);
    MulCommutes(u[j], 1);
  }

  lemma ApplyUnit(m: Matrix, n: nat, j: nat)
    requires IsMatrix(m, n, n) && j < n
    ensures Apply(m, UnitRow(n, j)) == Column(m, j)
  {
    hide Dot;
    forall k | 0 <= k < n ensures Apply(m, UnitRow(n, j))[k] == Column(m, j)[k] {
      DotUnit(m[k], n, j);
    }
  }

  /** The matrix form: the entries of r * m are those of the identity. */
  lemma LeftInverseProduct(r: Matrix, m: Matrix, n: nat, i: nat, j: nat)
    requires IsMatrix(m, n, n) && LeftInverse(r, m, n) && i < n && j < n
    ensures Dot(r[i], Column(m, j)) == if i == j then 1 else 0
  {
    hide Dot, Column;
    var e := UnitRow(n, j);
    ApplyUnit(m, n, j);
    assert Apply(r, Apply(m, e))[i] == e[i];
  }

  /** r * m == I, entry by entry. */
  ghost predicate ProductIsIdentity(r: Matrix, m: Matrix, n: nat)
    requires IsMatrix(m, n, n) && IsMatrix(r, n, n)
  {
    forall i, j :: 0 <= i < n && 0 <= j < n ==> Dot(r[i], Column(m, j)) == if i == j then 1 else 0
  }

  lemma LeftInverseIsInverse(r: Matrix, m: Matrix, n: nat)
    requires IsMatrix(m, n, n) && LeftInverse(r, m, n)
    ensures ProductIsIdentity(r, m, n)
  {
    assert IsMatrix(r, n, n);
    hide Dot, Column, LeftInverse;
    forall i, j | 0 <= i < n && 0 <= j < n ensures Dot(r[i], Column(m, j)) == if i == j then 1 else 0 {
      LeftInverseProduct(r, m, n, i, j);
    }
  }

  lemma InverseLeavesNoKernel(r: Matrix, m: Matrix, n: nat, x: Vector)
    requires |x| == n == |m| && LeftInverse(r, m, n) && Annihilates(m, x)
    ensures !NonZero(x)
  {
    hide Dot;
    assert Apply(m, x) == Zeros(n);
    forall i | 0 <= i < n ensures x[i] == 0 {
      DotAgainstZeros(r[i], n);
      assert Apply(r, Apply(m, x))[i] == x[i];
    }
  }

  lemma KernelRefutesInverse(m: Matrix, x: Vector)
    requires IsMatrix(m, |m|, |m|) && |x| == |m| && KernelVector(m, x)
    ensures !Invertible(m)
  {
    forall r | LeftInverse(r, m, |m|) ensures false {
      InverseLeavesNoKernel(r, m, |m|, x);
    }
  }

  lemma DotAgainstZeros(u: Vector, n: nat)
    ensures Dot(u, Zeros(n)) == 0
  {
    forall i | 0 <= i < |u| && i < n ensures Mul(u[i], Zeros(n)[i]) == 0 {}
    DotZeros(u, Zeros(n));
  }

  // ----- Row operations

  function Swap(m: Matrix, i: nat, j: nat): Matrix
    requires i < |m| && j < |m|
  {
    m[i := m[j]][j := m[i]]
  }

  lemma SwapKernel(m: Matrix, i: nat, j: nat)
    requires i < |m| && j < |m|
    ensures SameKernel(m, Swap(m, i, j))
  {
    hide Dot;
    var m' := Swap(m, i, j);
    forall y ensures Annihilates(m, y) <==> Annihilates(m', y) {
      assert m'[i] == m[j] && m'[j] == m[i];
      assert forall k :: 0 <= k < |m| && k != i && k != j ==> m'[k] == m[k];
      if Annihilates(m', y) {
        forall k | 0 <= k < |m| ensures Dot(m[k], y) == 0 {
          assert m[k] == m'[if k == i then j else if k == j then i else k];
        }
      }
    }
  }

  lemma ScaleKernel(m: Matrix, i: nat, c: byte)
    requires i < |m| && c != 0
    ensures SameKernel(m, m[i := Scale(m[i], c)])
  {
    hide Dot, Mul;
    var m' := m[i := Scale(m[i], c)];
    forall y ensures Annihilates(m, y) <==> Annihilates(m', y) {
      DotScale(m[i], c, y);
      NoZeroDivisors(Dot(m[i], y), c);
      assert forall k :: 0 <= k < |m| && k != i ==> m'[k] == m[k];
      if Annihilates(m', y) {
        forall k | 0 <= k < |m| ensures Dot(m[k], y) == 0 {
          assert Dot(m'[k], y) == 0;
        }
      }
    }
  }

  lemma AddScaledKernel(m: Matrix, i: nat, c: byte, p: nat)
    requires i < |m| && p < |m| && i != p && |m[i]| == |m[p]|
    ensures SameKernel(m, m[i := AddScaled(m[i], c, m[p])])
  {
    hide Dot, Mul, Add;
    var m' := m[i := AddScaled(m[i], c, m[p])];
    forall y ensures Annihilates(m, y) <==> Annihilates(m', y) {
      DotAddScaled(m[i], c, m[p], y);
      assert forall k :: 0 <= k < |m| && k != i ==> m'[k] == m[k];
      if Annihilates(m, y) || Annihilates(m', y) {
        assert m'[p] == m[p];
        assert Dot(m[p], y) == 0;
        MulCommutes(c, 0);
        MulZeroLeft(c);
        AddLaws(Dot(m[i], y), 0, 0);
        assert Dot(m'[i], y) == Dot(m[i], y);
      }
    }
  }

  // ----- Gauss-Jordan elimination

  /** First row at or below `row` whose entry in `col` is not zero. */
  function PivotFrom(m: Matrix, col: nat, row: nat): (p: Option<nat>)
    requires row <= |m| && forall i :: 0 <= i < |m| ==> col < |m[i]|
    ensures p.Some? ==> row <= p.value < |m| && m[p.value][col] != 0
    ensures p.None? ==> forall i :: row <= i < |m| ==> m[i][col] == 0
    decreases |m| - row
  {
    if row == |m| then None
    else if m[row][col] != 0 then Some(row)
    else PivotFrom(m, col, row + 1)
  }

  function ClearRow(m: Matrix, col: nat, row: nat): Matrix
    requires col < |m| && row < |m| && forall i :: 0 <= i < |m| ==> |m[i]| == |m[col]| > col
  {
    if row == col || m[row][col] == 0 then m
    else m[row := AddScaled(m[row], m[row][col], m[col])]
  }

  /** Clears column `col` in the rows from `row` on, using row `col`. */
  function ClearFrom(m: Matrix, col: nat, row: nat): (m': Matrix)
    requires row <= |m| && col < |m| && forall i :: 0 <= i < |m| ==> |m[i]| == |m[col]| > col
    ensures |m'| == |m| && forall i :: 0 <= i < |m| ==> |m'[i]| == |m[col]|
    decreases |m| - row
  {
    if row == |m| then m else ClearFrom(ClearRow(m, col, row), col, row + 1)
  }

  /** The pivot row brought to the diagonal and divided by its diagonal entry. */
  function Normalize(m: Matrix, col: nat, p: nat): (m': Matrix)
    requires col < |m| && p < |m| && forall i :: 0 <= i < |m| ==> |m[i]| == |m[col]| > col
    ensures |m'| == |m| && forall i :: 0 <= i < |m| ==> |m'[i]| == |m[col]|
  {
    var s := Swap(m, col, p);
    s[col := Scale(s[col], Pow(s[col][col], 254))]
  }

  function EliminateFrom(m: Matrix, col: nat): (e: Option<Matrix>)
    requires col <= |m| && forall i :: 0 <= i < |m| ==> |m[i]| == |m[0]| >= |m|
    ensures e.Some? ==> |e.value| == |m| && forall i :: 0 <= i < |m| ==> |e.value[i]| == |m[0]|
    decreases |m| - col
  {
    if col == |m| then Some(m)
    else
      match PivotFrom(m, col, col)
      case None => None
      case Some(p) => EliminateFrom(ClearFrom(Normalize(m, col, p), col, 0), col + 1)
  }

  function Augment(m: Matrix): Matrix {
    seq(|m|, i requires 0 <= i < |m| => m[i] + UnitRow(|m|, i))
  }

  function RightHalf(m: Matrix): Matrix
    requires forall i :: 0 <= i < |m| ==> |m| <= |m[i]|
  {
    seq(|m|, i requires 0 <= i < |m| => m[i][|m|..])
  }

  function GaussJordan(m: Matrix): Option<Matrix>
    requires |m| > 0 && IsMatrix(m, |m|, |m|)
  {
    match EliminateFrom(Augment(m), 0)
    case None => None
    case Some(e) => Some(RightHalf(e))
  }

  /** Columns before `done` are those of the identity. */
  ghost predicate Reduced(m: Matrix, done: nat) {
    forall i, j :: 0 <= i < |m| && 0 <= j < done && j < |m[i]| ==> m[i][j] == if i == j then 1 else 0
  }

  lemma NormalizeStep(m: Matrix, cols: nat, col: nat, p: nat)
    requires IsMatrix(m, |m|, cols) && col <= p < |m| <= cols
    requires Reduced(m, col) && m[p][col] != 0
    ensures var m' := Normalize(m, col, p);
            SameKernel(m, m') && Reduced(m', col) && m'[col][col] == 1
  {
    hide Mul, Dot, Pow;
    var s := Swap(m, col, p);
    var pivot := s[col][col];
    var inverse := Pow(pivot, 254);
    SwapKernel(m, col, p);
    InverseIsPow254(pivot);
    ScaleKernel(s, col, inverse);
    MulCommutes(pivot, inverse);
    MulZeroLeft(inverse);
  }

  lemma ClearRowStep(m: Matrix, cols: nat, col: nat, row: nat)
    requires IsMatrix(m, |m|, cols) && col < |m| <= cols && row < |m|
    requires Reduced(m, col) && m[col][col] == 1
    ensures var m' := ClearRow(m, col, row);
            SameKernel(m, m') && Reduced(m', col) && m'[col] == m[col] &&
            (row != col ==> m'[row][col] == 0) && forall i :: 0 <= i < |m| && i != row ==> m'[i] == m[i]
  {
    hide Mul, Dot, Add;
    if row != col && m[row][col] != 0 {
      var f := m[row][col];
      AddScaledKernel(m, row, f, col);
      MulCommutes(f, 1);
      MulOneLeft(f);
      MulCommutes(f, 0);
      MulZeroLeft(f);
      AddLaws(f, 0, 0);
      forall j | 0 <= j < col ensures AddScaled(m[row], f, m[col])[j] == m[row][j] {
        AddLaws(m[row][j], 0, 0);
      }
    }
  }

  lemma {:induction false} ClearFromStep(m: Matrix, cols: nat, col: nat, row: nat)
    requires IsMatrix(m, |m|, cols) && col < |m| <= cols && row <= |m|
    requires Reduced(m, col) && m[col][col] == 1
    requires forall i :: 0 <= i < row && i != col ==> m[i][col] == 0
    ensures var m' := ClearFrom(m, col, row); SameKernel(m, m') && Reduced(m', col + 1)
    decreases |m| - row
  {
    if row < |m| {
      hide Dot, Mul, Add, Annihilates, ClearRow;
      ClearRowStep(m, cols, col, row);
      ClearFromStep(ClearRow(m, col, row), cols, col, row + 1);
    }
  }

  /** What a column without a pivot leaves behind: a vector the reduced columns cannot tell from zero. */
  function StuckVector(m: Matrix, n: nat, col: nat): Vector
    requires col < n <= |m| && forall i :: 0 <= i < |m| ==> n <= |m[i]|
  {
    seq(n, j requires 0 <= j < n => if j < col then m[j][col] else if j == col then 1 else 0)
  }

  lemma StuckAnnihilates(m: Matrix, n: nat, col: nat)
    requires IsMatrix(m, n, 2 * n) && col < n && Reduced(m, col)
    requires forall i :: col <= i < n ==> m[i][col] == 0
    ensures Annihilates(m, StuckVector(m, n, col) + Zeros(n))
  {
    hide Mul, Dot, Add;
    var x := StuckVector(m, n, col);
    var y := x + Zeros(n);
    forall i | 0 <= i < n ensures Dot(m[i], y) == 0 {
      var row := m[i];
      forall j | 0 <= j < 2 * n && j != col && j != i ensures Mul(row[j], y[j]) == 0 {
        MulZeroLeft(y[j]);
        MulCommutes(row[j], 0);
        MulZeroLeft(row[j]);
      }
      if i < col {
        DotTwo(row, y, i, col);
        MulOneLeft(y[i]);
        MulCommutes(row[col], 1);
        MulOneLeft(row[col]);
        AddLaws(row[col], 0, 0);
      } else {
        MulZeroLeft(y[col]);
        MulCommutes(row[i], 0);
        MulZeroLeft(row[i]);
        DotZeros(row, y);
      }
    }
  }

  lemma {:induction false} EliminateStep(m: Matrix, n: nat, col: nat)
    requires IsMatrix(m, n, 2 * n) && col <= n && Reduced(m, col)
    ensures var e := EliminateFrom(m, col);
            if e.Some? then IsMatrix(e.value, n, 2 * n) && SameKernel(m, e.value) && Reduced(e.value, n)
            else exists x :: |x| == n && NonZero(x) && Annihilates(m, x + Zeros(n))
    decreases n - col
  {
    if col < n {
      var pivot := PivotFrom(m, col, col);
      if pivot.None? {
        StuckAnnihilates(m, n, col);
        var x := StuckVector(m, n, col);
        assert x[col] == 1;
      } else {
        NormalizeStep(m, 2 * n, col, pivot.value);
        var s := Normalize(m, col, pivot.value);
        ClearFromStep(s, 2 * n, col, 0);
        EliminateStep(ClearFrom(s, col, 0), n, col + 1);
      }
    }
  }

  lemma AugmentedKernel(m: Matrix, n: nat, x: Vector, z: Vector)
    requires IsMatrix(m, n, n) && |x| == |z| == n
    ensures Annihilates(Augment(m), x + z) <==> Apply(m, x) == z
  {
    hide Dot, Add;
    forall i | 0 <= i < n ensures Dot(Augment(m)[i], x + z) == 0 <==> Dot(m[i], x) == z[i] {
      DotConcat(m[i], UnitRow(n, i), x, z);
      DotUnit(z, n, i);
      AddCancel(Dot(m[i], x), z[i]);
    }
  }

  lemma ReducedKernel(e: Matrix, n: nat, x: Vector, z: Vector)
    requires IsMatrix(e, n, 2 * n) && Reduced(e, n) && |x| == |z| == n
    ensures Annihilates(e, x + z) <==> Apply(RightHalf(e), z) == x
  {
    hide Dot, Add;
    forall i | 0 <= i < n ensures Dot(e[i], x + z) == 0 <==> Dot(RightHalf(e)[i], z) == x[i] {
      assert e[i] == UnitRow(n, i) + e[i][n..];
      DotConcat(UnitRow(n, i), e[i][n..], x, z);
      DotUnit(x, n, i);
      AddCancel(x[i], Dot(e[i][n..], z));
    }
  }

  /**
   Gauss-Jordan is correct and complete: a result is the inverse, no result comes with a non-zero kernel vector,
   and there is a result exactly for invertible matrices.
   */
  lemma GaussJordanCorrect(m: Matrix)
    requires |m| > 0 && IsMatrix(m, |m|, |m|)
    ensures var r := GaussJordan(m);
            if r.Some? then LeftInverse(r.value, m, |m|) && ProductIsIdentity(r.value, m, |m|)
            else exists x :: |x| == |m| && KernelVector(m, x)
    ensures GaussJordan(m).Some? <==> Invertible(m)
  {
    hide Dot, Add, Mul, PivotFrom, ClearFrom, Normalize, EliminateFrom;
    var n := |m|;
    var a := Augment(m);
    EliminateStep(a, n, 0);
    var e := EliminateFrom(a, 0);
    if e.Some? {
      var r := RightHalf(e.value);
      forall x | |x| == n ensures Apply(r, Apply(m, x)) == x {
        AugmentedKernel(m, n, x, Apply(m, x));
        ReducedKernel(e.value, n, x, Apply(m, x));
      }
      assert LeftInverse(r, m, n);
      LeftInverseIsInverse(r, m, n);
    } else {
      var x :| |x| == n && NonZero(x) && Annihilates(a, x + Zeros(n));
      AugmentedKernel(m, n, x, Zeros(n));
      assert forall i :: 0 <= i < n ==> Dot(m[i], x) == Apply(m, x)[i];
      KernelRefutesInverse(m, x);
    }
  }

  /** A square matrix is invertible exactly when it has no non-zero kernel vector. */
  lemma InvertibleIffNoKernel(m: Matrix)
    requires |m| > 0 && IsMatrix(m, |m|, |m|)
    ensures Invertible(m) <==> forall x :: |x| == |m| ==> !KernelVector(m, x)
  {
    GaussJordanCorrect(m);
    forall x | |x| == |m| && KernelVector(m, x) ensures !Invertible(m) {
      KernelRefutesInverse(m, x);
    }
  }

  // ----- The source's loops

  datatype MatrixError = NotSquare | Singular | Dimensions | InconsistentSizes | EmptyVector

  method FindPivot(augmented: Matrix, column: nat) returns (pivot: Option<nat>)
    requires column <= |augmented| && forall i :: 0 <= i < |augmented| ==> column < |augmented[i]|
    ensures pivot == PivotFrom(augmented, column, column)
  {
    var row := column;
    while row < |augmented| && augmented[row][column] == 0
      invariant column <= row <= |augmented|
      invariant PivotFrom(augmented, column, row) == PivotFrom(augmented, column, column)
    {
      row := row + 1;
    }
    pivot := if row < |augmented| then Some(row) else None;
  }

  method ClearColumn(augmented0: Matrix, column: nat) returns (augmented: Matrix)
    requires column < |augmented0|
    requires forall i :: 0 <= i < |augmented0| ==> |augmented0[i]| == |augmented0[column]| > column
    ensures augmented == ClearFrom(augmented0, column, 0)
  {
    hide Mul, Add;
    augmented := augmented0;
    for row := 0 to |augmented|
      invariant |augmented| == |augmented0|
      invariant forall i :: 0 <= i < |augmented| ==> |augmented[i]| == |augmented0[column]|
      invariant ClearFrom(augmented, column, row) == ClearFrom(augmented0, column, 0)
    {
      if row == column || augmented[row][column] == 0 {
        continue;
      }
      var factor := augmented[row][column];
      augmented := augmented[row := AddScaled(augmented[row], factor, augmented[column])];
    }
  }

  method MatrixInverse(matrix: Matrix) returns (result: Result<Matrix, MatrixError>)
    ensures result == Err(NotSquare) <==> |matrix| == 0 || !IsMatrix(matrix, |matrix|, |matrix|)
    ensures result != Err(NotSquare) ==>
              result == match GaussJordan(matrix) case Some(r) => Ok(r) case None => Err(Singular)
    ensures result.Ok? ==> LeftInverse(result.value, matrix, |matrix|)
    ensures result != Err(NotSquare) ==> (result.Ok? <==> Invertible(matrix))
  {
    hide LeftInverse, Invertible, Mul, Pow, Dot, Add, ClearFrom, PivotFrom;
    var size := |matrix|;
    if size == 0 || exists i :: 0 <= i < size && |matrix[i]| != size {
      return Err(NotSquare);
    }
    GaussJordanCorrect(matrix);
    var augmented := Augment(matrix);
    for column := 0 to size
      invariant IsMatrix(augmented, size, 2 * size)
      invariant EliminateFrom(augmented, column) == EliminateFrom(Augment(matrix), 0)
    {
      var pivot := FindPivot(augmented, column);
      if pivot.None? {
        return Err(Singular);
      }
      ghost var normalized := Normalize(augmented, column, pivot.value);
      augmented := augmented[column := augmented[pivot.value]][pivot.value := augmented[column]];
      var inverse := GfInv(augmented[column][column]);
      augmented := augmented[column := Scale(augmented[column], inverse.value)];
      assert augmented == normalized;
      augmented := ClearColumn(augmented, column);
    }
    result := Ok(RightHalf(augmented));
  }

  /** The shards at byte position t, one entry per shard. */
  function Slice(shards: seq<Vector>, t: nat): Vector
    requires forall j :: 0 <= j < |shards| ==> t < |shards[j]|
  {
    seq(|shards|, j requires 0 <= j < |shards| => shards[j][t])
  }

  predicate SameWidth(shards: seq<Vector>, width: nat) {
    forall j :: 0 <= j < |shards| ==> |shards[j]| == width
  }

  /** The product of a matrix and a column of byte strings, position by position. */
  function ApplyShards(m: Matrix, shards: seq<Vector>, width: nat): seq<Vector>
    requires SameWidth(shards, width)
  {
    seq(|m|, i requires 0 <= i < |m| => seq(width, t requires 0 <= t < width => Dot(m[i], Slice(shards, t))))
  }

  lemma {:induction false} DotLast(u: Vector, v: Vector, n: nat)
    requires n < |u| && n < |v|
    ensures Dot(u[..n + 1], v[..n + 1]) == Add(Dot(u[..n], v[..n]), Mul(u[n], v[n]))
  {
    hide Mul, Add;
    if n == 0 {
      assert Dot(u[..1], v[..1]) == Add(Mul(u[0], v[0]), Dot(u[..1][1..], v[..1][1..]));
      AddLaws(Mul(u[0], v[0]), 0, 0);
    } else {
      assert u[..n + 1][1..] == u[1..][..n] && v[..n + 1][1..] == v[1..][..n];
      assert u[..n][1..] == u[1..][..n - 1] && v[..n][1..] == v[1..][..n - 1];
      DotLast(u[1..], v[1..], n - 1);
      AddLaws(Mul(u[0], v[0]), Dot(u[..n][1..], v[..n][1..]), Mul(u[n], v[n]));
    }
  }

  /** Accumulates coefficient * shard into result, byte by byte. */
  method AccumulateShard(result: array<byte>, coefficient: byte, shard: Vector)
    requires result.Length == |shard|
    modifies result
    ensures forall t :: 0 <= t < |shard| ==> result[t] == Add(old(result[t]), Mul(coefficient, shard[t]))
  {
    for index := 0 to |shard|
      invariant forall t :: 0 <= t < index ==> result[t] == Add(old(result[t]), Mul(coefficient, shard[t]))
      invariant forall t :: index <= t < |shard| ==> result[t] == old(result[t])
    {
      hide Mul;
      var product := GfMul(coefficient, shard[index]);
      result[index] := Add(result[index], product);
    }
  }

  method MatrixVector(matrix: Matrix, vector: seq<Vector>) returns (result: Result<seq<Vector>, MatrixError>)
    ensures result == Err(Dimensions) <==> |matrix| == 0 || |matrix[0]| != |vector|
    ensures result == Err(EmptyVector) <==> |matrix| > 0 && matrix[0] == [] && vector == []
    ensures result == Err(InconsistentSizes) <==>
              |matrix| > 0 && |matrix[0]| == |vector| > 0 && !SameWidth(vector, |vector[0]|)
    ensures result.Ok? <==> |matrix| > 0 && |matrix[0]| == |vector| > 0 && SameWidth(vector, |vector[0]|)
    ensures result.Ok? ==> |vector| > 0 && SameWidth(vector, |vector[0]|) &&
                           result.value == ApplyShards(matrix, vector, |vector[0]|)
  {
    hide Mul, Add;
    if |matrix| == 0 || |matrix[0]| != |vector| {
      return Err(Dimensions);
    }
    if |vector| == 0 {
      return Err(EmptyVector);
    }
    var width := |vector[0]|;
    var output: seq<Vector> := [];
    for r := 0 to |matrix|
      invariant r > 0 ==> SameWidth(vector, width)
      invariant |output| == r
      invariant SameWidth(vector, width) ==> output == ApplyShards(matrix, vector, width)[..r]
    {
      var row := matrix[r];
      var bytes := new byte[width](_ => 0);
      var pairs := if |row| < |vector| then |row| else |vector|;
      for j := 0 to pairs
        invariant forall k :: 0 <= k < j ==> |vector[k]| == width
        invariant SameWidth(vector, width) ==>
                    forall t :: 0 <= t < width ==> bytes[t] == Dot(row[..j], Slice(vector, t)[..j])
      {
        if |vector[j]| != width {
          return Err(InconsistentSizes);
        }
        label before:
        if row[j] != 0 {
          AccumulateShard(bytes, row[j], vector[j]);
        } else {
          forall t | 0 <= t < width ensures bytes[t] == Add(bytes[t], Mul(row[j], vector[j][t])) {
            MulZeroLeft(vector[j][t]);
            AddLaws(bytes[t], 0, 0);
          }
        }
        if SameWidth(vector, width) {
          forall t | 0 <= t < width ensures bytes[t] == Dot(row[..j + 1], Slice(vector, t)[..j + 1]) {
            DotLast(row, Slice(vector, t), j);
          }
        }
      }
      if SameWidth(vector, width) {
        forall t | 0 <= t < width ensures bytes[t] == Dot(row, Slice(vector, t)) {
          DotPrefix(row, Slice(vector, t), pairs);
        }
        assert bytes[..] == ApplyShards(matrix, vector, width)[r];
      }
      output := output + [bytes[..]];
    }
    result := Ok(output);
  }

  lemma {:induction false} DotPrefix(u: Vector, v: Vector, n: nat)
    requires n == if |u| < |v| then |u| else |v|
    ensures Dot(u[..n], v[..n]) == Dot(u, v)
  {
    if n > 0 {
      assert u[..n][1..] == u[1..][..n - 1] && v[..n][1..] == v[1..][..n - 1];
      DotPrefix(u[1..], v[1..], n - 1);
    }
  }

  /** A left inverse of the matrix undoes the product on byte strings. */
  lemma ApplyShardsInverse(r: Matrix, m: Matrix, shards: seq<Vector>, width: nat)
    requires |m| == |shards| && LeftInverse(r, m, |m|) && SameWidth(shards, width)
    ensures SameWidth(ApplyShards(m, shards, width), width)
    ensures ApplyShards(r, ApplyShards(m, shards, width), width) == shards
  {
    hide Dot;
    var coded := ApplyShards(m, shards, width);
    var back := ApplyShards(r, coded, width);
    forall i, t | 0 <= i < |m| && 0 <= t < width ensures back[i][t] == shards[i][t] {
      var x := Slice(shards, t);
      assert Slice(coded, t) == Apply(m, x);
      assert Apply(r, Apply(m, x))[i] == x[i];
    }
    forall i | 0 <= i < |m| ensures back[i] == shards[i] {}
  }
}
