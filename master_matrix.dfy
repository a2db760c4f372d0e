/** `MasterMatrix` (smuthi/linear_system.py): the operator M = 1 - T W of the linear
    system M b = T a. When W is stored, M is assembled as a dense matrix; otherwise M x is
    computed on demand as x - T (W x). */
module MasterMatrixOperator {
  import opened Common
  import opened LinAlg
  import opened Particles
  import opened SystemLayout
  import opened TMatrixOperator
  import opened CouplingMatrixOperator

  /** What `scipy.linalg.lu_factor` returns: the packed factors and the pivot indices. */
  datatype LuFactors = LuFactors(lu: Matrix, piv: seq<int>)

  /** `np.eye(n) - t_matrix.linear_operator.matmat(W)` for a stored W. */
  function DenseMaster(ts: seq<Matrix>, sizes: seq<nat>, w: Matrix): (m: Matrix)
    requires BlockShapes(ts, sizes) && IsMatrix(w, Total(sizes), Total(sizes))
    ensures IsMatrix(m, Total(sizes), Total(sizes))
  {
    TMatMatShape(ts, sizes, w, Total(sizes));
    IdentityMinus(TMatMat(ts, sizes, w, Total(sizes)))
  }

  /** The dense master matrix applies as the on-the-fly one does: M x == x - T (W x). */
  lemma DenseMasterApply(ts: seq<Matrix>, sizes: seq<nat>, w: Matrix, x: Vector)
    requires BlockShapes(ts, sizes) && IsMatrix(w, Total(sizes), Total(sizes)) && |x| == Total(sizes)
    ensures MatVec(DenseMaster(ts, sizes, w), x) == Sub(x, BlockDiagApply(ts, sizes, MatVec(w, x)))
  {
    TMatMatApply(ts, sizes, w, x);
    IdentityMinusApply(TMatMat(ts, sizes, w, |x|), x);
  }

  class MasterMatrix {
    const tMatrix: TMatrix
    const coupling: CouplingMatrix
    /** `linear_operator.A`: present exactly when W is stored. */
    const dense: Option<Matrix>
    /** `LU_piv`, cached by the first LU solve. */
    var luPiv: Option<LuFactors>

    constructor (tMatrix: TMatrix, coupling: CouplingMatrix, dense: Option<Matrix>)
      ensures this.tMatrix == tMatrix && this.coupling == coupling && this.dense == dense
      ensures luPiv.None?
    {
      this.tMatrix := tMatrix;
      this.coupling := coupling;
      this.dense := dense;
      luPiv := None;
    }

    /** Both operators act on the same particles, and the dense matrix, when present,
        is 1 - T W for the stored W. */
    predicate Valid()
    {
      && tMatrix.Valid() && coupling.Valid() && coupling.particles == tMatrix.particles
      && (dense.Some? <==> coupling.op.Stored?)
      && (coupling.op.Stored? ==>
            dense.value == DenseMaster(TMatrices(tMatrix.particles), Sizes(tMatrix.particles), coupling.op.a))
    }

    /** M x == x - T (W x), or the exception W raises. */
    function Product(x: Vector): (r: Result<Vector>)
      requires Valid() && |x| == Total(Sizes(tMatrix.particles))
      ensures r.Err? <==> coupling.Product(x).Err?
      ensures r.Ok? ==> |r.value| == |x|
    {
      match coupling.Product(x)
      case Err(e) => Err(e)
      case Ok(wx) => Ok(Sub(x, BlockDiagApply(TMatrices(tMatrix.particles), Sizes(tMatrix.particles), wx)))
    }

    /** The operator's `matvec`: the dense matrix when W is stored, else
        `apply_master_matrix`. */
    method Apply(x: Vector) returns (r: Result<Vector>)
      requires Valid() && |x| == Total(Sizes(tMatrix.particles))
      ensures r == Product(x)
    {
      var ts, sizes := TMatrices(tMatrix.particles), Sizes(tMatrix.particles);
      if dense.Some? {
        DenseMasterApply(ts, sizes, coupling.op.a, x);
        r := Ok(MatVec(dense.value, x));
      } else {
        var wx := coupling.Apply(x);
        if wx.Err? {
          r := Err(wx.error);
        } else {
          var twx := tMatrix.Apply(wx.value);
          r := Ok(Sub(x, twx));
        }
      }
    }

    /** M 0 == 0 whenever M can be applied. */
    lemma ProductZero()
      requires Valid()
      ensures var z := Zeros(Total(Sizes(tMatrix.particles)));
        Product(z).Ok? ==> Product(z).value == z
    {
      coupling.ProductZero();
      BlockDiagApplyZero(TMatrices(tMatrix.particles), Sizes(tMatrix.particles));
    }

    /** A solution of M b = T a satisfies the multiple-scattering equation
        b == T (a + W b): each particle's outgoing coefficients are its T-matrix applied
        to its initial field plus the field scattered to it by the others. */
    lemma SolutionSelfConsistent(b: Vector)
      requires Valid() && InitialFieldsFit(tMatrix.particles) && |b| == Total(Sizes(tMatrix.particles))
      requires var ps := tMatrix.particles;
        Product(b) == Ok(BlockDiagApply(TMatrices(ps), Sizes(ps), Stack(Sizes(ps), InitialFields(ps))))
      ensures coupling.Product(b).Ok?
      ensures var ps := tMatrix.particles;
        b == BlockDiagApply(TMatrices(ps), Sizes(ps), Add(Stack(Sizes(ps), InitialFields(ps)), coupling.Product(b).value))
    {
      var ps := tMatrix.particles;
      var wb := coupling.Product(b);
      var ts, sizes, a := TMatrices(ps), Sizes(ps), Stack(Sizes(ps), InitialFields(ps));
      assert Product(b) == Ok(Sub(b, BlockDiagApply(ts, sizes, wb.value)));
      ScatteringEquation(ts, sizes, a, wb.value, b);
    }

    /** Without coupling (a stored W of zeros) M is the identity. */
    lemma Uncoupled(x: Vector)
      requires Valid() && |x| == Total(Sizes(tMatrix.particles)) && coupling.op.Stored?
      requires forall r, c :: 0 <= r < |coupling.op.a| && 0 <= c < |coupling.op.a[r]| ==> coupling.op.a[r][c] == 0.0
      ensures Product(x) == Ok(x)
    {
      var ps := tMatrix.particles;
      ZeroCouplingIsIdentity(TMatrices(ps), Sizes(ps), coupling.op.a, x);
    }
  }

  /** b - T w == T a gives b == T (a + w). */
  lemma ScatteringEquation(ts: seq<Matrix>, sizes: seq<nat>, a: Vector, w: Vector, b: Vector)
    requires BlockShapes(ts, sizes) && |a| == |w| == |b| == Total(sizes)
    requires Sub(b, BlockDiagApply(ts, sizes, w)) == BlockDiagApply(ts, sizes, a)
    ensures b == BlockDiagApply(ts, sizes, Add(a, w))
  {
    var ta, tw := BlockDiagApply(ts, sizes, a), BlockDiagApply(ts, sizes, w);
    BlockDiagApplyAdd(ts, sizes, a, w);
    forall r | 0 <= r < |b| ensures b[r] == Add(ta, tw)[r] {
      assert Sub(b, tw)[r] == ta[r];
    }
  }

  /** x - T (0 x) == x. */
  lemma ZeroCouplingIsIdentity(ts: seq<Matrix>, sizes: seq<nat>, w: Matrix, x: Vector)
    requires BlockShapes(ts, sizes) && IsMatrix(w, Total(sizes), Total(sizes)) && |x| == Total(sizes)
    requires forall r, c :: 0 <= r < |w| && 0 <= c < |w[r]| ==> w[r][c] == 0.0
    ensures Sub(x, BlockDiagApply(ts, sizes, MatVec(w, x))) == x
  {
    forall r | 0 <= r < |w| ensures Dot(w[r], x) == 0.0 {
      DotToZero(w[r], x, |x|);
    }
    assert MatVec(w, x) == Zeros(|x|);
    BlockDiagApplyZero(ts, sizes);
  }

  /** `MasterMatrix.__init__`: the dense 1 - T W is built with T's `matmat` exactly when
      W is a stored matrix. */
  method NewMasterMatrix(t: TMatrix, c: CouplingMatrix) returns (m: MasterMatrix)
    requires t.Valid() && c.Valid() && c.particles == t.particles
    ensures fresh(m) && m.tMatrix == t && m.coupling == c && m.Valid() && m.luPiv.None?
  {
    var dense: Option<Matrix> := None;
    if c.op.Stored? {
      var ts, sizes := TMatrices(t.particles), Sizes(t.particles);
      var ta := t.MatMat(c.op.a, Total(sizes));
      TMatMatShape(ts, sizes, c.op.a, Total(sizes));
      dense := Some(IdentityMinus(ta));
    }
    m := new MasterMatrix(t, c, dense);
  }
}
