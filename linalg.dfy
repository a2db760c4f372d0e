/** Dense vectors and matrices over an abstract scalar field (the engine's complex
    coefficients are represented by `real`), and the algebraic facts the operator
    lemmas rest on. */
module LinAlg {

  type Vector = seq<real>
  type Matrix = seq<seq<real>>

  /** Sum of the first n products u[k] * v[k]. */
  function DotTo(u: Vector, v: Vector, n: nat): real
    requires n <= |u| && n <= |v|
    decreases n
  {
    if n == 0 then 0.0 else DotTo(u, v, n - 1) + u[n - 1] * v[n - 1]
  }

  lemma DotToStep(u: Vector, v: Vector, k: nat)
    requires 0 < k <= |u| && k <= |v|
    ensures DotTo(u, v, k) == DotTo(u, v, k - 1) + u[k - 1] * v[k - 1]
  {
  }

  function Dot(u: Vector, v: Vector): real
    requires |u| == |v|
  {
    DotTo(u, v, |u|)
  }

  function Zeros(n: nat): (r: Vector)
    ensures |r| == n && forall i :: 0 <= i < n ==> r[i] == 0.0
  {
    seq(n, i => 0.0)
  }

  function Add(u: Vector, v: Vector): (r: Vector)
    requires |u| == |v|
    ensures |r| == |u| && forall i :: 0 <= i < |u| ==> r[i] == u[i] + v[i]
  {
    seq(|u|, i requires 0 <= i < |u| => u[i] + v[i])
  }

  function Sub(u: Vector, v: Vector): (r: Vector)
    requires |u| == |v|
    ensures |r| == |u| && forall i :: 0 <= i < |u| ==> r[i] == u[i] - v[i]
  {
    seq(|u|, i requires 0 <= i < |u| => u[i] - v[i])
  }

  /** The k-th unit vector of length n. */
  function Unit(n: nat, k: nat): (r: Vector)
    ensures |r| == n && forall i :: 0 <= i < n ==> r[i] == if i == k then 1.0 else 0.0
  {
    seq(n, i => if i == k then 1.0 else 0.0)
  }

  predicate IsMatrix(a: Matrix, rows: nat, cols: nat)
  {
    |a| == rows && forall r :: 0 <= r < rows ==> |a[r]| == cols
  }

  function MatVec(a: Matrix, x: Vector): (y: Vector)
    requires IsMatrix(a, |a|, |x|)
    ensures |y| == |a| && forall r :: 0 <= r < |a| ==> y[r] == Dot(a[r], x)
  {
    seq(|a|, r requires 0 <= r < |a| => Dot(a[r], x))
  }

  function Column(a: Matrix, cols: nat, c: nat): (col: Vector)
    requires IsMatrix(a, |a|, cols) && c < cols
    ensures |col| == |a| && forall r :: 0 <= r < |a| ==> col[r] == a[r][c]
  {
    seq(|a|, r requires 0 <= r < |a| => a[r][c])
  }

  /** Sums over equal entries are equal. */
  lemma {:induction false} DotToCongruent(u: Vector, x: Vector, v: Vector, y: Vector, n: nat)
    requires n <= |u| && n <= |x| && n <= |v| && n <= |y|
    requires forall i :: 0 <= i < n ==> u[i] == v[i] && x[i] == y[i]
    ensures DotTo(u, x, n) == DotTo(v, y, n)
    decreases n
  {
    if n > 0 {
      DotToCongruent(u, x, v, y, n - 1);
    }
  }

  /** The sum is linear in its left argument. */
  lemma {:induction false} DotToLinearLeft(u: Vector, v: Vector, c: real, w: Vector, x: Vector, n: nat)
    requires n <= |u| && n <= |v| && n <= |w| && n <= |x|
    requires forall i :: 0 <= i < n ==> u[i] == v[i] + c * w[i]
    ensures DotTo(u, x, n) == DotTo(v, x, n) + c * DotTo(w, x, n)
    decreases n
  {
    if n > 0 {
      var k := n - 1;
      DotToLinearLeft(u, v, c, w, x, k);
      assert u[k] * x[k] == v[k] * x[k] + c * (w[k] * x[k]);
    }
  }

  /** The sum is linear in its right argument. */
  lemma {:induction false} DotToLinearRight(t: Vector, u: Vector, v: Vector, c: real, w: Vector, n: nat)
    requires n <= |t| && n <= |u| && n <= |v| && n <= |w|
    requires forall i :: 0 <= i < n ==> u[i] == v[i] + c * w[i]
    ensures DotTo(t, u, n) == DotTo(t, v, n) + c * DotTo(t, w, n)
    decreases n
  {
    if n > 0 {
      var k := n - 1;
      DotToLinearRight(t, u, v, c, w, k);
      assert t[k] * u[k] == t[k] * v[k] + c * (t[k] * w[k]);
    }
  }

  /** A vanishing argument, on either side, gives a vanishing sum. */
  lemma {:induction false} DotToZero(u: Vector, v: Vector, n: nat)
    requires n <= |u| && n <= |v|
    requires (forall i :: 0 <= i < n ==> u[i] == 0.0) || (forall i :: 0 <= i < n ==> v[i] == 0.0)
    ensures DotTo(u, v, n) == 0.0
    decreases n
  {
    if n > 0 {
      DotToZero(u, v, n - 1);
    }
  }

  lemma DotAddRight(t: Vector, u: Vector, v: Vector)
    requires |t| == |u| == |v|
    ensures Dot(t, Add(u, v)) == Dot(t, u) + Dot(t, v)
  {
    DotToLinearRight(t, Add(u, v), u, 1.0, v, |t|);
  }

  lemma DotSubRight(t: Vector, u: Vector, v: Vector)
    requires |t| == |u| == |v|
    ensures Dot(t, Sub(u, v)) == Dot(t, u) - Dot(t, v)
  {
    DotToLinearRight(t, Sub(u, v), u, -1.0, v, |t|);
  }

  lemma DotSubLeft(u: Vector, v: Vector, x: Vector)
    requires |u| == |v| == |x|
    ensures Dot(Sub(u, v), x) == Dot(u, x) - Dot(v, x)
  {
    DotToLinearLeft(Sub(u, v), u, -1.0, v, x, |x|);
  }

  lemma DotZeroRight(t: Vector)
    ensures Dot(t, Zeros(|t|)) == 0.0
  {
    DotToZero(t, Zeros(|t|), |t|);
  }

  lemma MatVecAdd(a: Matrix, u: Vector, v: Vector)
    requires |u| == |v| && IsMatrix(a, |a|, |u|)
    ensures MatVec(a, Add(u, v)) == Add(MatVec(a, u), MatVec(a, v))
  {
    forall r | 0 <= r < |a| ensures Dot(a[r], Add(u, v)) == Dot(a[r], u) + Dot(a[r], v) {
      DotAddRight(a[r], u, v);
    }
  }

  lemma MatVecZero(a: Matrix, n: nat)
    requires IsMatrix(a, |a|, n)
    ensures MatVec(a, Zeros(n)) == Zeros(|a|)
  {
    forall r | 0 <= r < |a| ensures Dot(a[r], Zeros(n)) == 0.0 {
      DotZeroRight(a[r]);
    }
  }

  /** A unit vector picks out one entry. */
  lemma {:induction false} DotToUnit(n: nat, k: nat, x: Vector, m: nat)
    requires |x| == n && k < n && m <= n
    ensures DotTo(Unit(n, k), x, m) == if k < m then x[k] else 0.0
    decreases m
  {
    if m > 0 {
      DotToUnit(n, k, x, m - 1);
    }
  }

  lemma DotUnit(n: nat, k: nat, x: Vector)
    requires |x| == n && k < n
    ensures Dot(Unit(n, k), x) == x[k]
  {
    DotToUnit(n, k, x, n);
  }

  /** Row vector t times the first k rows of matrix a, as a vector of cols entries. */
  function VecMatTo(t: Vector, a: Matrix, cols: nat, k: nat): (y: Vector)
    requires IsMatrix(a, |t|, cols) && k <= |t|
    ensures |y| == cols && forall c :: 0 <= c < cols ==> y[c] == DotTo(t, Column(a, cols, c), k)
  {
    seq(cols, c requires 0 <= c < cols => DotTo(t, Column(a, cols, c), k))
  }

  function VecMat(t: Vector, a: Matrix, cols: nat): (y: Vector)
    requires IsMatrix(a, |t|, cols)
    ensures |y| == cols && forall c :: 0 <= c < cols ==> y[c] == Dot(t, Column(a, cols, c))
  {
    VecMatTo(t, a, cols, |t|)
  }

  /** Adding row k - 1 of a, weighted by t[k - 1], to the partial product. */
  lemma VecMatToStep(t: Vector, a: Matrix, cols: nat, k: nat)
    requires IsMatrix(a, |t|, cols) && 0 < k <= |t|
    ensures forall c :: 0 <= c < cols ==>
      VecMatTo(t, a, cols, k)[c] == VecMatTo(t, a, cols, k - 1)[c] + t[k - 1] * a[k - 1][c]
  {
    forall c | 0 <= c < cols
      ensures VecMatTo(t, a, cols, k)[c] == VecMatTo(t, a, cols, k - 1)[c] + t[k - 1] * a[k - 1][c]
    {
      assert Column(a, cols, c)[k - 1] == a[k - 1][c];
    }
  }

  lemma {:induction false} DotVecMatTo(t: Vector, a: Matrix, x: Vector, k: nat)
    requires IsMatrix(a, |t|, |x|) && k <= |t|
    ensures Dot(VecMatTo(t, a, |x|, k), x) == DotTo(t, MatVec(a, x), k)
    decreases k
  {
    var n := |x|;
    if k == 0 {
      DotToZero(VecMatTo(t, a, n, 0), x, n);
    } else {
      var j := k - 1;
      DotVecMatTo(t, a, x, j);
      DotVecMatStep(t, a, x, k);
      DotToStep(t, MatVec(a, x), k);
    }
  }

  /** Row k - 1 of a, weighted by t[k - 1], adds t[k - 1] (a x)[k - 1] to the product with x. */
  lemma DotVecMatStep(t: Vector, a: Matrix, x: Vector, k: nat)
    requires IsMatrix(a, |t|, |x|) && 0 < k <= |t|
    ensures Dot(VecMatTo(t, a, |x|, k), x) == Dot(VecMatTo(t, a, |x|, k - 1), x) + t[k - 1] * MatVec(a, x)[k - 1]
  {
    var n, j := |x|, k - 1;
    VecMatToStep(t, a, n, k);
    DotToLinearLeft(VecMatTo(t, a, n, k), VecMatTo(t, a, n, j), t[j], a[j], x, n);
  }

  /** Associativity of row-vector, matrix and vector products: (t a) x == t (a x). */
  lemma DotVecMat(t: Vector, a: Matrix, x: Vector)
    requires IsMatrix(a, |t|, |x|)
    ensures Dot(VecMat(t, a, |x|), x) == Dot(t, MatVec(a, x))
  {
    DotVecMatTo(t, a, x, |t|);
  }

  /** A row that vanishes outside the window [s, s + |t|) and holds t inside it acts
      on v only through v's entries in that window. */
  lemma {:induction false} DotToWindow(u: Vector, v: Vector, t: Vector, s: nat, m: nat)
    requires |u| == |v| && s + |t| <= |u| && m <= |u|
    requires forall k :: 0 <= k < |u| ==> u[k] == if s <= k < s + |t| then t[k - s] else 0.0
    ensures DotTo(u, v, m) == if m <= s then 0.0 else DotTo(t, v[s..s + |t|], if m < s + |t| then m - s else |t|)
    decreases m
  {
    if m > 0 {
      DotToWindow(u, v, t, s, m - 1);
      if s < m <= s + |t| {
        assert v[s..s + |t|][m - 1 - s] == v[m - 1];
      }
    }
  }

  lemma DotWindow(u: Vector, v: Vector, t: Vector, s: nat)
    requires |u| == |v| && s + |t| <= |u|
    requires forall k :: 0 <= k < |u| ==> u[k] == if s <= k < s + |t| then t[k - s] else 0.0
    ensures Dot(u, v) == Dot(t, v[s..s + |t|])
  {
    DotToWindow(u, v, t, s, |u|);
  }

  /** Entrywise sum of two matrices of one shape. */
  function MatAdd(a: Matrix, b: Matrix): (c: Matrix)
    requires |a| == |b| && forall r :: 0 <= r < |a| ==> |a[r]| == |b[r]|
    ensures |c| == |a| && forall r :: 0 <= r < |a| ==> c[r] == Add(a[r], b[r])
  {
    seq(|a|, r requires 0 <= r < |a| => Add(a[r], b[r]))
  }

  /** The matrix 1 - a. */
  function IdentityMinus(a: Matrix): (d: Matrix)
    requires IsMatrix(a, |a|, |a|)
    ensures IsMatrix(d, |a|, |a|)
    ensures forall r :: 0 <= r < |a| ==> d[r] == Sub(Unit(|a|, r), a[r])
  {
    seq(|a|, r requires 0 <= r < |a| => Sub(Unit(|a|, r), a[r]))
  }

  /** (1 - a) x == x - a x. */
  lemma IdentityMinusApply(a: Matrix, x: Vector)
    requires IsMatrix(a, |a|, |a|) && |x| == |a|
    ensures MatVec(IdentityMinus(a), x) == Sub(x, MatVec(a, x))
  {
    var n := |a|;
    forall r | 0 <= r < n ensures Dot(IdentityMinus(a)[r], x) == x[r] - Dot(a[r], x) {
      DotSubLeft(Unit(n, r), a[r], x);
      DotUnit(n, r, x);
    }
  }

  /** The product t b of a matrix t and a matrix b of `cols` columns, row by row. */
  function MatMul(t: Matrix, b: Matrix, cols: nat): (p: Matrix)
    requires IsMatrix(t, |t|, |b|) && IsMatrix(b, |b|, cols)
    ensures IsMatrix(p, |t|, cols) && forall j :: 0 <= j < |t| ==> p[j] == VecMat(t[j], b, cols)
  {
    seq(|t|, j requires 0 <= j < |t| => VecMat(t[j], b, cols))
  }

  /** Column c of t b is t times column c of b. */
  lemma MatMulColumn(t: Matrix, b: Matrix, cols: nat, c: nat)
    requires IsMatrix(t, |t|, |b|) && IsMatrix(b, |b|, cols) && c < cols
    ensures Column(MatMul(t, b, cols), cols, c) == MatVec(t, Column(b, cols, c))
  {
  }

  /** (t b) x == t (b x). */
  lemma MatMulApply(t: Matrix, b: Matrix, x: Vector)
    requires IsMatrix(t, |t|, |b|) && IsMatrix(b, |b|, |x|)
    ensures MatVec(MatMul(t, b, |x|), x) == MatVec(t, MatVec(b, x))
  {
    forall j | 0 <= j < |t| ensures Dot(MatMul(t, b, |x|)[j], x) == Dot(t[j], MatVec(b, x)) {
      DotVecMat(t[j], b, x);
    }
  }
}
