/** `TMatrix` (smuthi/linear_system.py): the particles' T-matrices collected into one
    block-diagonal operator on system vectors. */
module TMatrixOperator {
  import opened Common
  import opened MultipoleIndex
  import opened LinAlg
  import opened FieldExpansion
  import opened Particles
  import opened SystemLayout

  /** Block i is a square matrix of side sizes[i]. */
  predicate BlockShapes(ts: seq<Matrix>, sizes: seq<nat>)
  {
    |ts| == |sizes| && forall i {:trigger ts[i]} :: 0 <= i < |sizes| ==> IsMatrix(ts[i], sizes[i], sizes[i])
  }

  /** The operator the source builds: each segment of v multiplied by its particle's
      T-matrix. */
  function BlockDiagApply(ts: seq<Matrix>, sizes: seq<nat>, v: Vector): (w: Vector)
    requires BlockShapes(ts, sizes) && |v| == Total(sizes)
    ensures |w| == Total(sizes)
    ensures forall i :: 0 <= i < |sizes| ==> Segment(sizes, w, i) == MatVec(ts[i], Segment(sizes, v, i))
  {
    Stack(sizes, seq(|sizes|, i requires 0 <= i < |sizes| => MatVec(ts[i], Segment(sizes, v, i))))
  }

  /** Row t placed at columns s .. s + |t| - 1 of a row of n zeros. */
  function Window(t: Vector, s: nat, n: nat): (row: Vector)
    requires s + |t| <= n
    ensures |row| == n
  {
    seq(n, c requires 0 <= c < n => if s <= c < s + |t| then t[c - s] else 0.0)
  }

  /** The rows of diag(T_1, ..., T_N) that belong to particle i. */
  function BlockRows(ts: seq<Matrix>, sizes: seq<nat>, i: nat): (rows: Matrix)
    requires BlockShapes(ts, sizes) && i < |sizes|
    ensures |rows| == sizes[i]
  {
    BlockWithinTotal(sizes, i);
    seq(sizes[i], j requires 0 <= j < sizes[i] => Window(ts[i][j], Start(sizes, i), Total(sizes)))
  }

  /** The dense block-diagonal matrix diag(T_1, ..., T_N): row j of particle i's block
      holds row j of T_i in the columns of that block and zeros elsewhere. */
  function BlockDiag(ts: seq<Matrix>, sizes: seq<nat>): (d: Matrix)
    requires BlockShapes(ts, sizes)
    ensures |d| == Total(sizes)
    ensures forall i :: 0 <= i < |sizes| ==> Segment(sizes, d, i) == BlockRows(ts, sizes, i)
  {
    Stack(sizes, seq(|sizes|, i requires 0 <= i < |sizes| => BlockRows(ts, sizes, i)))
  }

  /** Row r of diag(T_1, ..., T_N), at position j of block i, is row j of T_i in the
      window of block i. */
  lemma BlockDiagRow(ts: seq<Matrix>, sizes: seq<nat>, i: nat, j: nat)
    requires BlockShapes(ts, sizes) && i < |sizes| && j < sizes[i]
    ensures Start(sizes, i) + sizes[i] <= Total(sizes) && |ts[i][j]| == sizes[i]
    ensures BlockDiag(ts, sizes)[Start(sizes, i) + j] == Window(ts[i][j], Start(sizes, i), Total(sizes))
  {
    BlockWithinTotal(sizes, i);
    assert BlockDiag(ts, sizes)[Start(sizes, i) + j] == Segment(sizes, BlockDiag(ts, sizes), i)[j];
  }

  /** diag(T_1, ..., T_N) is square of side Total(sizes). */
  lemma BlockDiagShape(ts: seq<Matrix>, sizes: seq<nat>)
    requires BlockShapes(ts, sizes)
    ensures IsMatrix(BlockDiag(ts, sizes), Total(sizes), Total(sizes))
  {
    forall r | 0 <= r < Total(sizes) ensures |BlockDiag(ts, sizes)[r]| == Total(sizes) {
      var i := Locate(sizes, r);
      BlockDiagRow(ts, sizes, i, r - Start(sizes, i));
    }
  }

  /** Entry j of block i of the block-wise product is row j of T_i times segment i. */
  lemma BlockDiagApplyAt(ts: seq<Matrix>, sizes: seq<nat>, v: Vector, i: nat, j: nat)
    requires BlockShapes(ts, sizes) && |v| == Total(sizes) && i < |sizes| && j < sizes[i]
    ensures Start(sizes, i) + j < Total(sizes)
    ensures BlockDiagApply(ts, sizes, v)[Start(sizes, i) + j] == Dot(ts[i][j], Segment(sizes, v, i))
  {
    BlockWithinTotal(sizes, i);
    var w := BlockDiagApply(ts, sizes, v);
    assert Segment(sizes, w, i) == MatVec(ts[i], Segment(sizes, v, i));
    assert w[Start(sizes, i) + j] == Segment(sizes, w, i)[j];
  }

  /** A row holding t in the window of segment i, and zero elsewhere, dots v to t . v_i. */
  lemma WindowDot(sizes: seq<nat>, v: Vector, t: Vector, i: nat)
    requires |v| == Total(sizes) && i < |sizes| && |t| == sizes[i] && Start(sizes, i) + sizes[i] <= Total(sizes)
    ensures Dot(Window(t, Start(sizes, i), Total(sizes)), v) == Dot(t, Segment(sizes, v, i))
  {
    var s := Start(sizes, i);
    DotWindow(Window(t, s, Total(sizes)), v, t, s);
    assert v[s..s + |t|] == Segment(sizes, v, i);
  }

  /** Row r of diag(T_1, ..., T_N) times v is entry r of the block-wise product. */
  lemma BlockDiagRowApply(ts: seq<Matrix>, sizes: seq<nat>, v: Vector, i: nat, j: nat)
    requires BlockShapes(ts, sizes) && |v| == Total(sizes) && i < |sizes| && j < sizes[i]
    ensures Start(sizes, i) + j < Total(sizes) && |BlockDiag(ts, sizes)[Start(sizes, i) + j]| == Total(sizes)
    ensures Dot(BlockDiag(ts, sizes)[Start(sizes, i) + j], v) == BlockDiagApply(ts, sizes, v)[Start(sizes, i) + j]
  {
    BlockDiagRow(ts, sizes, i, j);
    WindowDot(sizes, v, ts[i][j], i);
    BlockDiagApplyAt(ts, sizes, v, i, j);
  }

  /** The block-wise product is multiplication by the dense block-diagonal matrix. */
  lemma BlockDiagApplyIsMatVec(ts: seq<Matrix>, sizes: seq<nat>, v: Vector)
    requires BlockShapes(ts, sizes) && |v| == Total(sizes)
    ensures IsMatrix(BlockDiag(ts, sizes), Total(sizes), Total(sizes))
    ensures MatVec(BlockDiag(ts, sizes), v) == BlockDiagApply(ts, sizes, v)
  {
    BlockDiagShape(ts, sizes);
    forall r | 0 <= r < Total(sizes) ensures Dot(BlockDiag(ts, sizes)[r], v) == BlockDiagApply(ts, sizes, v)[r] {
      var i := Locate(sizes, r);
      BlockDiagRowApply(ts, sizes, v, i, r - Start(sizes, i));
    }
  }

  /** The operator is linear: T (u + v) == T u + T v. */
  lemma BlockDiagApplyAdd(ts: seq<Matrix>, sizes: seq<nat>, u: Vector, v: Vector)
    requires BlockShapes(ts, sizes) && |u| == |v| == Total(sizes)
    ensures BlockDiagApply(ts, sizes, Add(u, v)) == Add(BlockDiagApply(ts, sizes, u), BlockDiagApply(ts, sizes, v))
  {
    var tu, tv := BlockDiagApply(ts, sizes, u), BlockDiagApply(ts, sizes, v);
    var lhs := BlockDiagApply(ts, sizes, Add(u, v));
    forall i | 0 <= i < |sizes| ensures Segment(sizes, lhs, i) == Segment(sizes, Add(tu, tv), i) {
      SegmentAdd(sizes, u, v, i);
      SegmentAdd(sizes, tu, tv, i);
      MatVecAdd(ts[i], Segment(sizes, u, i), Segment(sizes, v, i));
    }
    SegmentsDetermine(sizes, lhs, Add(tu, tv));
  }

  /** ... and maps the zero vector to the zero vector. */
  lemma BlockDiagApplyZero(ts: seq<Matrix>, sizes: seq<nat>)
    requires BlockShapes(ts, sizes)
    ensures BlockDiagApply(ts, sizes, Zeros(Total(sizes))) == Zeros(Total(sizes))
  {
    var z := Zeros(Total(sizes));
    var w := BlockDiagApply(ts, sizes, z);
    forall i | 0 <= i < |sizes| ensures Segment(sizes, w, i) == Segment(sizes, z, i) {
      SegmentZeros(sizes, i);
      MatVecZero(ts[i], sizes[i]);
    }
    SegmentsDetermine(sizes, w, z);
  }

  /** `matmat`: the rows of block i of the result are T_i times the rows of block i of a. */
  function TMatMat(ts: seq<Matrix>, sizes: seq<nat>, a: Matrix, cols: nat): (ta: Matrix)
    requires BlockShapes(ts, sizes) && IsMatrix(a, Total(sizes), cols)
    ensures |ta| == Total(sizes)
    ensures forall i :: 0 <= i < |sizes| ==> Segment(sizes, ta, i) == MatMul(ts[i], Segment(sizes, a, i), cols)
  {
    Stack(sizes, seq(|sizes|, i requires 0 <= i < |sizes| => MatMul(ts[i], Segment(sizes, a, i), cols)))
  }

  /** Every row of T a has `cols` entries. */
  lemma TMatMatShape(ts: seq<Matrix>, sizes: seq<nat>, a: Matrix, cols: nat)
    requires BlockShapes(ts, sizes) && IsMatrix(a, Total(sizes), cols)
    ensures IsMatrix(TMatMat(ts, sizes, a, cols), Total(sizes), cols)
  {
    var ta := TMatMat(ts, sizes, a, cols);
    forall r | 0 <= r < Total(sizes) ensures |ta[r]| == cols {
      var i := Locate(sizes, r);
      assert ta[r] == Segment(sizes, ta, i)[r - Start(sizes, i)];
    }
  }

  /** Column c of T a is the operator applied to column c of a, so `matmat` agrees
      with `matvec` column by column. */
  lemma TMatMatColumns(ts: seq<Matrix>, sizes: seq<nat>, a: Matrix, cols: nat, c: nat)
    requires BlockShapes(ts, sizes) && IsMatrix(a, Total(sizes), cols) && c < cols
    ensures IsMatrix(TMatMat(ts, sizes, a, cols), Total(sizes), cols)
    ensures Column(TMatMat(ts, sizes, a, cols), cols, c) == BlockDiagApply(ts, sizes, Column(a, cols, c))
  {
    TMatMatShape(ts, sizes, a, cols);
    var ta := TMatMat(ts, sizes, a, cols);
    var col := Column(a, cols, c);
    forall i | 0 <= i < |sizes|
      ensures Segment(sizes, Column(ta, cols, c), i) == Segment(sizes, BlockDiagApply(ts, sizes, col), i)
    {
      SegmentColumn(sizes, ta, cols, c, i);
      MatMulColumn(ts[i], Segment(sizes, a, i), cols, c);
      SegmentColumn(sizes, a, cols, c, i);
    }
    SegmentsDetermine(sizes, Column(ta, cols, c), BlockDiagApply(ts, sizes, col));
  }

  /** (T a) x == T (a x): multiplying by the stored product equals applying a, then T. */
  lemma TMatMatApply(ts: seq<Matrix>, sizes: seq<nat>, a: Matrix, x: Vector)
    requires BlockShapes(ts, sizes) && IsMatrix(a, Total(sizes), |x|)
    ensures IsMatrix(TMatMat(ts, sizes, a, |x|), Total(sizes), |x|)
    ensures MatVec(TMatMat(ts, sizes, a, |x|), x) == BlockDiagApply(ts, sizes, MatVec(a, x))
  {
    TMatMatShape(ts, sizes, a, |x|);
    var ta := TMatMat(ts, sizes, a, |x|);
    var ax := MatVec(a, x);
    forall i | 0 <= i < |sizes|
      ensures Segment(sizes, MatVec(ta, x), i) == Segment(sizes, BlockDiagApply(ts, sizes, ax), i)
    {
      SegmentMatVec(sizes, ta, x, i);
      MatMulApply(ts[i], Segment(sizes, a, i), x);
      SegmentMatVec(sizes, a, x, i);
    }
    SegmentsDetermine(sizes, MatVec(ta, x), BlockDiagApply(ts, sizes, ax));
  }

  /** The slice of T v that belongs to particle i. */
  lemma BlockDiagApplySlice(ts: seq<Matrix>, sizes: seq<nat>, v: Vector, i: nat)
    requires BlockShapes(ts, sizes) && |v| == Total(sizes) && i < |sizes|
    ensures Start(sizes, i) + sizes[i] <= Total(sizes)
    ensures BlockDiagApply(ts, sizes, v)[Start(sizes, i)..Start(sizes, i) + sizes[i]] == MatVec(ts[i], Segment(sizes, v, i))
  {
    assert Segment(sizes, BlockDiagApply(ts, sizes, v), i) == MatVec(ts[i], Segment(sizes, v, i));
  }

  /** The slice of T a that belongs to particle i. */
  lemma TMatMatSlice(ts: seq<Matrix>, sizes: seq<nat>, a: Matrix, cols: nat, i: nat)
    requires BlockShapes(ts, sizes) && IsMatrix(a, Total(sizes), cols) && i < |sizes|
    ensures Start(sizes, i) + sizes[i] <= Total(sizes)
    ensures TMatMat(ts, sizes, a, cols)[Start(sizes, i)..Start(sizes, i) + sizes[i]] == MatMul(ts[i], Segment(sizes, a, i), cols)
  {
    assert Segment(sizes, TMatMat(ts, sizes, a, cols), i) == MatMul(ts[i], Segment(sizes, a, i), cols);
  }

  /** The slice of T applied to the stacked coefficients that belongs to particle i. */
  lemma ProductSlice(ts: seq<Matrix>, sizes: seq<nat>, coefficients: seq<Vector>, i: nat)
    requires BlockShapes(ts, sizes) && |coefficients| == |sizes| && i < |sizes|
    requires forall i {:trigger coefficients[i]} :: 0 <= i < |sizes| ==> |coefficients[i]| == sizes[i]
    ensures Start(sizes, i) + sizes[i] <= Total(sizes)
    ensures BlockDiagApply(ts, sizes, Stack(sizes, coefficients))[Start(sizes, i)..Start(sizes, i) + sizes[i]]
      == MatVec(ts[i], coefficients[i])
  {
    var v := Stack(sizes, coefficients);
    assert Segment(sizes, v, i) == coefficients[i];
    BlockDiagApplySlice(ts, sizes, v, i);
  }

  /** The loop of `apply_t_matrix` on a vector: segment by segment, T_i times segment i. */
  method ApplyBlocks(ts: seq<Matrix>, sizes: seq<nat>, v: Vector) returns (tv: Vector)
    requires BlockShapes(ts, sizes) && |v| == Total(sizes)
    ensures tv == BlockDiagApply(ts, sizes, v)
  {
    ghost var w := BlockDiagApply(ts, sizes, v);
    var out := new real[|v|](_ => 0.0);
    for i := 0 to |sizes|
      invariant Start(sizes, i) <= out.Length == |w|
      invariant forall r :: 0 <= r < Start(sizes, i) ==> out[r] == w[r]
    {
      var block := MatVec(ts[i], Segment(sizes, v, i));
      BlockDiagApplySlice(ts, sizes, v, i);
      WriteSegment(out, sizes, i, block, w);
    }
    tv := out[..];
  }

  /** The loop of `apply_t_matrix` on a matrix: block by block, T_i times the block's rows. */
  method MatMatBlocks(ts: seq<Matrix>, sizes: seq<nat>, a: Matrix, cols: nat) returns (ta: Matrix)
    requires BlockShapes(ts, sizes) && IsMatrix(a, Total(sizes), cols)
    ensures ta == TMatMat(ts, sizes, a, cols)
  {
    ghost var w := TMatMat(ts, sizes, a, cols);
    var out := new Vector[|a|](_ => []);
    for i := 0 to |sizes|
      invariant Start(sizes, i) <= out.Length == |w|
      invariant forall r :: 0 <= r < Start(sizes, i) ==> out[r] == w[r]
    {
      var block := MatMul(ts[i], Segment(sizes, a, i), cols);
      TMatMatSlice(ts, sizes, a, cols, i);
      WriteSegment(out, sizes, i, block, w);
    }
    ta := out[..];
  }

  /** The loop of `right_hand_side`: block i is T_i times the coefficients a^i. */
  method ProductBlocks(ts: seq<Matrix>, sizes: seq<nat>, coefficients: seq<Vector>) returns (tai: Vector)
    requires BlockShapes(ts, sizes) && |coefficients| == |sizes|
    requires forall i {:trigger coefficients[i]} :: 0 <= i < |sizes| ==> |coefficients[i]| == sizes[i]
    ensures tai == BlockDiagApply(ts, sizes, Stack(sizes, coefficients))
  {
    ghost var w := BlockDiagApply(ts, sizes, Stack(sizes, coefficients));
    var out := new real[Total(sizes)](_ => 0.0);
    for i := 0 to |sizes|
      invariant Start(sizes, i) <= out.Length == |w|
      invariant forall r :: 0 <= r < Start(sizes, i) ==> out[r] == w[r]
    {
      ProductBlock(out, ts, sizes, coefficients, i, w);
    }
    tai := out[..];
  }

  /** One pass of the loop of `right_hand_side`: writes T_i a^i into block i. */
  method ProductBlock(out: array<real>, ts: seq<Matrix>, sizes: seq<nat>, coefficients: seq<Vector>, i: nat, ghost w: Vector)
    requires BlockShapes(ts, sizes) && |coefficients| == |sizes| && i < |sizes|
    requires forall i {:trigger coefficients[i]} :: 0 <= i < |sizes| ==> |coefficients[i]| == sizes[i]
    requires w == BlockDiagApply(ts, sizes, Stack(sizes, coefficients)) && Start(sizes, i) <= out.Length == |w|
    requires forall r :: 0 <= r < Start(sizes, i) ==> out[r] == w[r]
    modifies out
    ensures Start(sizes, i + 1) <= out.Length
    ensures forall r :: 0 <= r < Start(sizes, i + 1) ==> out[r] == w[r]
  {
    BlockWithinTotal(sizes, i);
    var block := MatVec(ts[i], coefficients[i]);
    ProductSlice(ts, sizes, coefficients, i);
    WriteSegment(out, sizes, i, block, w);
  }

  /** Writes segment i of w, given the segments before it are already in place. */
  method WriteSegment<T>(out: array<T>, sizes: seq<nat>, i: nat, block: seq<T>, ghost w: seq<T>)
    requires out.Length == |w| == Total(sizes) && i < |sizes|
    requires Start(sizes, i) + sizes[i] <= |w| && block == w[Start(sizes, i)..Start(sizes, i) + sizes[i]]
    requires forall r :: 0 <= r < Start(sizes, i) ==> out[r] == w[r]
    modifies out
    ensures forall r :: 0 <= r < Start(sizes, i + 1) ==> out[r] == w[r]
  {
    WriteBlock(out, Start(sizes, i), block);
  }

  /** `array[s:s + len(block)] = block`. */
  method WriteBlock<T>(out: array<T>, s: nat, block: seq<T>)
    requires s + |block| <= out.Length
    modifies out
    ensures forall k :: 0 <= k < out.Length ==> out[k] == if s <= k < s + |block| then block[k - s] else old(out[k])
  {
    for j := 0 to |block|
      invariant forall k :: 0 <= k < out.Length ==> out[k] == if s <= k < s + j then block[k - s] else old(out[k])
    {
      out[s + j] := block[j];
    }
  }

  /** The particles' initial-field coefficients a^i. */
  function InitialFields(ps: seq<Particle>): (coefficients: seq<Vector>)
    ensures |coefficients| == |ps|
    ensures forall i :: 0 <= i < |ps| ==> coefficients[i] == ps[i].initialField.coefficients
  {
    seq(|ps|, i requires 0 <= i < |ps| => ps[i].initialField.coefficients)
  }

  /** Every particle's initial field has as many coefficients as its block. */
  predicate InitialFieldsFit(ps: seq<Particle>)
    requires ValidParticles(ps)
  {
    forall i :: 0 <= i < |ps| ==> |ps[i].initialField.coefficients| == Sizes(ps)[i]
  }

  class TMatrix {
    const particles: seq<Particle>

    constructor (particles: seq<Particle>)
      ensures this.particles == particles
    {
      this.particles := particles;
    }

    /** Each particle's T-matrix is square with the particle's block size. */
    predicate Valid()
    {
      ValidParticles(particles) && BlockShapes(TMatrices(particles), Sizes(particles))
    }

    /** `apply_t_matrix` on a vector (the operator's `matvec`). */
    method Apply(v: Vector) returns (tv: Vector)
      requires Valid() && |v| == Total(Sizes(particles))
      ensures tv == BlockDiagApply(TMatrices(particles), Sizes(particles), v)
    {
      tv := ApplyBlocks(TMatrices(particles), Sizes(particles), v);
    }

    /** `apply_t_matrix` on a matrix of `cols` columns (the operator's `matmat`). */
    method MatMat(a: Matrix, cols: nat) returns (ta: Matrix)
      requires Valid() && IsMatrix(a, Total(Sizes(particles)), cols)
      ensures ta == TMatMat(TMatrices(particles), Sizes(particles), a, cols)
    {
      ta := MatMatBlocks(TMatrices(particles), Sizes(particles), a, cols);
    }

    /** `right_hand_side`: T^i a^i for every particle, as one system vector. */
    method RightHandSide() returns (tai: Vector)
      requires Valid() && InitialFieldsFit(particles)
      ensures tai == BlockDiagApply(TMatrices(particles), Sizes(particles), Stack(Sizes(particles), InitialFields(particles)))
    {
      tai := ProductBlocks(TMatrices(particles), Sizes(particles), InitialFields(particles));
    }
  }
}
