/** Dense real matrices as values: the few MathNet operations the network uses
    (Dense construction, Clear, product, adding a scalar, pointwise activation),
    each with the shape it produces.  Mutable matrices are `array2<real>`;
    `Values` reads one as a `Matrix` and `Build` allocates one from a value. */
module Matrices {

  /** A rows x cols matrix, stored row by row. */
  datatype Matrix = Matrix(rows: nat, cols: nat, cells: seq<seq<real>>) {

    predicate Valid() {
      |cells| == rows && forall i :: 0 <= i < rows ==> |cells[i]| == cols
    }

    predicate HasShape(r: nat, c: nat) {
      Valid() && rows == r && cols == c
    }
  }

  /** An activation applied entry by entry (tanh, sigmoid); left uninterpreted. */
  type Activation = real -> real

  /** `Matrix<float>.Build.Dense(rows, cols)`: every entry is zero. */
  function Zeros(rows: nat, cols: nat): (z: Matrix)
    ensures z.HasShape(rows, cols)
    ensures forall i, j :: 0 <= i < rows && 0 <= j < cols ==> z.cells[i][j] == 0.0
  {
    Matrix(rows, cols, seq(rows, _ => seq(cols, _ => 0.0)))
  }

  /** The 1 x 3 input row holding the three sensor readings. */
  function Row3(a: real, b: real, c: real): (r: Matrix)
    ensures r.HasShape(1, 3)
    ensures r.cells[0][0] == a && r.cells[0][1] == b && r.cells[0][2] == c
  {
    Matrix(1, 3, [[a, b, c]])
  }

  /** The sum over t < k of a[i][t] * b[t][j]. */
  function Dot(a: Matrix, b: Matrix, i: nat, j: nat, k: nat): real
    requires a.Valid() && b.Valid() && i < a.rows && j < b.cols
    requires k <= a.cols && k <= b.rows
  {
    if k == 0 then 0.0 else Dot(a, b, i, j, k - 1) + a.cells[i][k - 1] * b.cells[k - 1][j]
  }

  /** Matrix product `a * b`; MathNet rejects it unless a.cols == b.rows. */
  function Mul(a: Matrix, b: Matrix): (p: Matrix)
    requires a.Valid() && b.Valid() && a.cols == b.rows
    ensures p.HasShape(a.rows, b.cols)
  {
    Matrix(a.rows, b.cols,
      seq(a.rows, i requires 0 <= i < a.rows =>
        seq(b.cols, j requires 0 <= j < b.cols => Dot(a, b, i, j, a.cols))))
  }

  /** `m + s`: the same scalar added to every entry (broadcast). */
  function AddScalar(m: Matrix, s: real): (r: Matrix)
    requires m.Valid()
    ensures r.HasShape(m.rows, m.cols)
  {
    Matrix(m.rows, m.cols,
      seq(m.rows, i requires 0 <= i < m.rows =>
        seq(m.cols, j requires 0 <= j < m.cols => m.cells[i][j] + s)))
  }

  /** `m.PointwiseTanh()` and the like: f applied to every entry. */
  function Pointwise(m: Matrix, f: Activation): (r: Matrix)
    requires m.Valid()
    ensures r.HasShape(m.rows, m.cols)
  {
    Matrix(m.rows, m.cols,
      seq(m.rows, i requires 0 <= i < m.rows =>
        seq(m.cols, j requires 0 <= j < m.cols => f(m.cells[i][j]))))
  }

  /** The current value of a mutable matrix. */
  function Values(m: array2<real>): (v: Matrix)
    reads m
    ensures v.HasShape(m.Length0, m.Length1)
    ensures forall i, j :: 0 <= i < m.Length0 && 0 <= j < m.Length1 ==> v.cells[i][j] == m[i, j]
  {
    Matrix(m.Length0, m.Length1,
      seq(m.Length0, i requires 0 <= i < m.Length0 reads m =>
        seq(m.Length1, j requires 0 <= j < m.Length1 reads m => m[i, j])))
  }

  /** Two valid matrices with the same shape and the same entries are equal. */
  lemma {:induction false} Extensionality(u: Matrix, v: Matrix)
    requires u.Valid() && v.Valid() && u.rows == v.rows && u.cols == v.cols
    requires forall i, j :: 0 <= i < u.rows && 0 <= j < u.cols ==> u.cells[i][j] == v.cells[i][j]
    ensures u == v
  {
    forall i | 0 <= i < u.rows
      ensures u.cells[i] == v.cells[i]
    {
      assert |u.cells[i]| == |v.cells[i]|;
      forall j | 0 <= j < u.cols
        ensures u.cells[i][j] == v.cells[i][j]
      {
      }
    }
  }

  /** `m[i, j] = x`: the matrix with one entry replaced. */
  function Set(m: Matrix, i: nat, j: nat, x: real): (r: Matrix)
    requires m.Valid() && i < m.rows && j < m.cols
    ensures r.HasShape(m.rows, m.cols)
    ensures r.cells[i][j] == x
    ensures forall i', j' :: 0 <= i' < m.rows && 0 <= j' < m.cols && (i', j') != (i, j) ==>
      r.cells[i'][j'] == m.cells[i'][j']
  {
    m.(cells := m.cells[i := m.cells[i][j := x]])
  }

  /** `m.Clear()`: every entry zero, the shape kept. */
  function Clear(m: Matrix): (r: Matrix)
    ensures r.HasShape(m.rows, m.cols)
    ensures forall i, j :: 0 <= i < m.rows && 0 <= j < m.cols ==> r.cells[i][j] == 0.0
  {
    Zeros(m.rows, m.cols)
  }

  /** A freshly allocated matrix holding v: how a weight matrix is created. */
  method Build(v: Matrix) returns (m: array2<real>)
    requires v.Valid()
    ensures fresh(m)
    ensures Values(m) == v
  {
    m := new real[v.rows, v.cols]((i, j) requires 0 <= i < v.rows && 0 <= j < v.cols => v.cells[i][j]);
    Extensionality(Values(m), v);
  }
}
