/** `LinearSystem.solve` (smuthi/linear_system.py): solve M b = T a with an LU
    factorisation of the stored master matrix or with GMRES, then store each particle's
    block of b as the coefficients of its outgoing scattered field. The layer system and
    the scipy solvers are parameters. */
module LinearSystemSolve {
  import opened Common
  import opened MultipoleIndex
  import opened LinAlg
  import opened FieldExpansion
  import opened Particles
  import opened SystemLayout
  import opened TMatrixOperator
  import opened MasterMatrixOperator

  /** What `solve` reads from the layer system: the layer holding a height, each layer's
      refractive index and its z-limits. */
  datatype LayerSystem = LayerSystem(
    layerNumber: real -> nat,
    refractiveIndices: nat -> real,
    lowerZLimit: nat -> Bound,
    upperZLimit: nat -> Bound)

  /** `scipy.linalg.lu_factor`, `scipy.linalg.lu_solve`, and `scipy.sparse.linalg.gmres`
      for this system's master operator, the last as (right-hand side, start vector) ->
      solution. Like scipy's, both solvers return a vector of the right-hand side's
      length. */
  type LuFactor = Matrix -> LuFactors
  type LuSolve = f: (LuFactors, Vector) -> Vector | forall lu, v :: |f(lu, v)| == |v|
    witness (lu: LuFactors, v: Vector) => v
  type Gmres = f: (Vector, Vector) -> Vector | forall rhs, x0 :: |f(rhs, x0)| == |rhs|
    witness (rhs: Vector, x0: Vector) => rhs

  // ---------------------------------------------------------------------------
  // Building the scattered field

  /** The parameters of `SphericalWaveExpansion.__init__`, and those without a default. */
  const SweParameters: seq<string> := ["k", "l_max", "m_max", "type", "reference_point", "valid_between"]
  const SweRequired: seq<string> := ["k", "l_max"]

  /** The keywords `solve` passes, as written and as the signature names them. */
  const CallKeywordsAsWritten: seq<string> := ["k", "l_max", "m_max", "kind", "reference_point", "lower_z", "upper_z"]
  const CallKeywords: seq<string> := ["k", "l_max", "m_max", "type", "reference_point", "valid_between"]

  /** The first keyword, in call order, that names no parameter. */
  function FirstUnknown(parameters: seq<string>, keywords: seq<string>): (u: Option<string>)
    ensures u.None? <==> forall w :: w in keywords ==> w in parameters
    ensures u.Some? ==> u.value in keywords && u.value !in parameters
  {
    if |keywords| == 0 then None
    else if keywords[0] !in parameters then Some(keywords[0])
    else FirstUnknown(parameters, keywords[1..])
  }

  /** Python's binding of keyword arguments: an unexpected keyword, or a parameter without
      a default left unbound, raises TypeError. */
  function BindKeywords(parameters: seq<string>, required: seq<string>, keywords: seq<string>): (r: Result<seq<string>>)
    ensures r.Ok? <==> (forall w :: w in keywords ==> w in parameters) && (forall q :: q in required ==> q in keywords)
    ensures r.Err? ==> r.error == TypeError
    ensures r.Ok? ==> r.value == keywords
  {
    if FirstUnknown(parameters, keywords).Some? then Err(TypeError)
    else if exists q :: q in required && q !in keywords then Err(TypeError)
    else Ok(keywords)
  }

  /** As written, the constructor call in `solve` is refused: `kind` is not a parameter. */
  lemma ScatteredFieldCallAsWrittenFails()
    ensures FirstUnknown(SweParameters, CallKeywordsAsWritten) == Some("kind")
    ensures BindKeywords(SweParameters, SweRequired, CallKeywordsAsWritten) == Err(TypeError)
  {
    var keywords := CallKeywordsAsWritten;
    assert keywords[0] == "k" && keywords[1] == "l_max" && keywords[2] == "m_max" && keywords[3] == "kind";
    assert "k" == SweParameters[0] && "l_max" == SweParameters[1] && "m_max" == SweParameters[2];
    assert "kind" !in SweParameters;
    calc {
      FirstUnknown(SweParameters, keywords);
      FirstUnknown(SweParameters, keywords[1..]);
      FirstUnknown(SweParameters, keywords[1..][1..]);
      FirstUnknown(SweParameters, keywords[1..][1..][1..]);
      Some("kind");
    }
  }

  /** With the signature's own names the call binds. */
  lemma ScatteredFieldCallBinds()
    ensures BindKeywords(SweParameters, SweRequired, CallKeywords) == Ok(CallKeywords)
  {
    assert forall w :: w in CallKeywords ==> w in SweParameters;
    assert forall q :: q in SweRequired ==> q in CallKeywords;
  }

  /** The outgoing expansion `solve` stores in a particle: wavenumber omega times the
      refractive index of the particle's layer, the particle's cutoffs, centred on the
      particle, valid between the layer's z-limits, carrying the given coefficients. */
  function ScatteredField(layers: LayerSystem, omega: real, p: Particle, coefficients: Vector): (s: Swe)
    ensures WellFormed(s) <==> ValidCutoffs(p.lMax, p.mMax) && |coefficients| == BlockSize(p.lMax, p.mMax)
  {
    var i := layers.layerNumber(p.position.z);
    Swe(omega * layers.refractiveIndices(i), p.lMax, p.mMax, coefficients, Some(Outgoing), Some(p.position),
        Some(ValidRange(layers.lowerZLimit(i), layers.upperZLimit(i))))
  }

  /** The stored field is the expansion the constructor builds from the call's
      arguments (under the signature's own keyword names), with its coefficient vector
      then replaced by the particle's block. */
  lemma ScatteredFieldIsConstructed(layers: LayerSystem, omega: real, p: Particle, coefficients: Vector)
    requires ValidCutoffs(p.lMax, p.mMax)
    ensures var i := layers.layerNumber(p.position.z);
      var blank := NewSwe(omega * layers.refractiveIndices(i), p.lMax, Some(p.mMax as int), Some(Outgoing),
                          Some(p.position), Some(ValidRange(layers.lowerZLimit(i), layers.upperZLimit(i))));
      && blank.Ok? && WellFormed(blank.value)
      && ScatteredField(layers, omega, p, coefficients) == blank.value.(coefficients := coefficients)
  {
  }

  /** `b[index_block(i)]` indexes b with the range of block i; on a system vector
      that is exactly block i. */
  lemma SliceIsSegment(ps: seq<Particle>, b: Vector, i: nat)
    requires ValidParticles(ps) && |b| == Total(Sizes(ps)) && i < |ps|
    ensures IndexBlock(ps, i).1 <= |b|
    ensures b[IndexBlock(ps, i).0..IndexBlock(ps, i).1] == Segment(Sizes(ps), b, i)
  {
  }

  /** No later entry of the list is the same particle object as entry j. */
  predicate LastOccurrence(ps: seq<Particle>, j: nat, n: nat)
    requires j < |ps| && n <= |ps|
  {
    forall j' :: j < j' < n ==> ps[j'] != ps[j]
  }

  // ---------------------------------------------------------------------------
  // The linear system

  class LinearSystem {
    const particles: seq<Particle>
    const layers: LayerSystem
    /** `coord.angular_frequency(initial_field.vacuum_wavelength)`. */
    const angularFrequency: real
    const solverType: string
    const tMatrix: TMatrix
    const master: MasterMatrix

    constructor (particles: seq<Particle>, layers: LayerSystem, angularFrequency: real, solverType: string,
                 tMatrix: TMatrix, master: MasterMatrix)
      ensures this.particles == particles && this.layers == layers && this.angularFrequency == angularFrequency
      ensures this.solverType == solverType && this.tMatrix == tMatrix && this.master == master
    {
      this.particles := particles;
      this.layers := layers;
      this.angularFrequency := angularFrequency;
      this.solverType := solverType;
      this.tMatrix := tMatrix;
      this.master := master;
    }

    /** The master matrix is 1 - T W for this system's T-matrix, over its particles, and
        every initial field fits its particle's block. */
    predicate Valid()
    {
      && master.Valid() && master.tMatrix == tMatrix && tMatrix.particles == particles
      && InitialFieldsFit(particles)
    }

    /** `t_matrix.right_hand_side()`: T a, whose block i is particle i's T-matrix
        applied to its initial-field coefficients. */
    function RightHandSide(): (rhs: Vector)
      requires Valid()
      ensures |rhs| == Total(Sizes(particles))
    {
      BlockDiagApply(TMatrices(particles), Sizes(particles), Stack(Sizes(particles), InitialFields(particles)))
    }

    /** Block i of the right-hand side is particle i's T-matrix applied to its
        initial-field coefficients. */
    lemma RightHandSideBlocks(i: nat)
      requires Valid() && i < |particles|
      ensures Segment(Sizes(particles), RightHandSide(), i) == MatVec(particles[i].tMatrix, particles[i].initialField.coefficients)
    {
      var sizes := Sizes(particles);
      var a := Stack(sizes, InitialFields(particles));
      assert Segment(sizes, a, i) == InitialFields(particles)[i];
    }

    /** The configurations `solve` refuses for a non-empty particle list: LU without a
        stored matrix, an unknown solver, or a master operator GMRES cannot apply. */
    predicate SolveFails()
      requires Valid()
    {
      || (solverType == "LU" && master.dense.None?)
      || (solverType == "gmres" && master.Product(RightHandSide()).Err?)
      || (solverType != "LU" && solverType != "gmres")
    }

    /** The solution vector b: from the LU factors (the cached ones, else freshly
        factored) or from GMRES started at the right-hand side. It has one entry per
        system position, so every particle's `index_block` lies inside it. */
    function Solution(lu: Option<LuFactors>, luFactor: LuFactor, luSolve: LuSolve, gmres: Gmres): (b: Vector)
      requires Valid() && (solverType == "LU" ==> master.dense.Some?)
      ensures |b| == Total(Sizes(particles))
    {
      var rhs := RightHandSide();
      if solverType == "LU" then luSolve(if lu.Some? then lu.value else luFactor(master.dense.value), rhs)
      else gmres(rhs, rhs)
    }

    /** `solve`. Returns the exception raised, if any; an empty particle list solves
        nothing and raises nothing. */
    method Solve(luFactor: LuFactor, luSolve: LuSolve, gmres: Gmres) returns (raised: Option<Error>)
      requires Valid()
      modifies master, particles
      ensures raised.Some? <==> |particles| > 0 && SolveFails()
      ensures raised.Some? ==> raised.value == if solverType == "gmres" then master.Product(RightHandSide()).error else ValueError
      ensures raised.Some? || |particles| == 0 ==>
        master.luPiv == old(master.luPiv) && unchanged(particles)
      ensures solverType != "LU" ==> master.luPiv == old(master.luPiv)
      ensures raised.None? && |particles| > 0 && solverType == "LU" ==>
        master.luPiv == Some(if old(master.luPiv).Some? then old(master.luPiv).value else luFactor(master.dense.value))
      ensures raised.None? && |particles| > 0 ==>
        FieldsHold(particles, Fields(particles, layers, angularFrequency, Solution(old(master.luPiv), luFactor, luSolve, gmres)), |particles|)
    {
      raised := None;
      if |particles| > 0 {
        raised := SolveParticles(luFactor, luSolve, gmres);
      }
    }

    /** `solve` for a non-empty particle list: the solver branch, then, if it raised
        nothing, the scattered fields. */
    method SolveParticles(luFactor: LuFactor, luSolve: LuSolve, gmres: Gmres) returns (raised: Option<Error>)
      requires Valid() && |particles| > 0
      modifies master, particles
      ensures raised.Some? <==> SolveFails()
      ensures raised.Some? ==> raised.value == if solverType == "gmres" then master.Product(RightHandSide()).error else ValueError
      ensures raised.Some? ==> master.luPiv == old(master.luPiv) && unchanged(particles)
      ensures solverType != "LU" ==> master.luPiv == old(master.luPiv)
      ensures raised.None? && solverType == "LU" ==>
        master.luPiv == Some(if old(master.luPiv).Some? then old(master.luPiv).value else luFactor(master.dense.value))
      ensures raised.None? ==>
        FieldsHold(particles, Fields(particles, layers, angularFrequency, Solution(old(master.luPiv), luFactor, luSolve, gmres)), |particles|)
    {
      assert forall k :: 0 <= k < |particles| ==> particles[k] as object != master;
      var b;
      raised, b := ComputeSolution(luFactor, luSolve, gmres);
      if raised.None? {
        StoreFields(particles, layers, angularFrequency, b);
      }
    }

    /** The solver branch of `solve` for a non-empty particle list: the exception it
        raises, or the solution vector. Only the LU cache changes. */
    method ComputeSolution(luFactor: LuFactor, luSolve: LuSolve, gmres: Gmres) returns (raised: Option<Error>, b: Vector)
      requires Valid()
      modifies master
      ensures raised.Some? <==> SolveFails()
      ensures raised.Some? ==> raised.value == if solverType == "gmres" then master.Product(RightHandSide()).error else ValueError
      ensures raised.Some? || solverType != "LU" ==> master.luPiv == old(master.luPiv)
      ensures raised.None? && solverType == "LU" ==>
        master.luPiv == Some(if old(master.luPiv).Some? then old(master.luPiv).value else luFactor(master.dense.value))
      ensures raised.None? ==> b == Solution(old(master.luPiv), luFactor, luSolve, gmres)
    {
      b := [];
      ghost var lu := master.luPiv;
      if solverType == "LU" {
        if master.dense.None? {
          return Some(ValueError), b;
        }
        if master.luPiv.None? {
          master.luPiv := Some(luFactor(master.dense.value));
        }
        var rhs := tMatrix.RightHandSide();
        b := luSolve(master.luPiv.value, rhs);
      } else if solverType == "gmres" {
        var rhs := tMatrix.RightHandSide();
        var first := master.Apply(rhs);
        if first.Err? {
          return Some(first.error), b;
        }
        b := gmres(rhs, rhs);
      } else {
        return Some(ValueError), b;
      }
      raised := None;
    }

    /** Once M b == T a, each particle's block of b is its T-matrix applied to its
        initial field plus the field the other particles scatter to it:
        b^i == T^i (a^i + (W b)^i). */
    lemma ScatteredCoefficientsConsistent(b: Vector, i: nat)
      requires Valid() && |b| == Total(Sizes(particles)) && i < |particles|
      requires master.Product(b) == Ok(RightHandSide())
      ensures master.coupling.Product(b).Ok? && |master.coupling.Product(b).value| == |b|
      ensures Segment(Sizes(particles), b, i)
          == MatVec(particles[i].tMatrix, Add(particles[i].initialField.coefficients,
                                              Segment(Sizes(particles), master.coupling.Product(b).value, i)))
    {
      master.SolutionSelfConsistent(b);
      BlockEquation(particles, b, master.coupling.Product(b).value, i);
    }

    /** An exact LU solve of the stored master matrix solves M b == T a. */
    lemma LuSolutionSolves(luFactor: LuFactor, luSolve: LuSolve, gmres: Gmres)
      requires Valid() && solverType == "LU" && master.dense.Some?
      requires var m := master.dense.value;
        MatVec(m, luSolve(luFactor(m), RightHandSide())) == RightHandSide()
      ensures master.Product(Solution(None, luFactor, luSolve, gmres)) == Ok(RightHandSide())
    {
      var b := Solution(None, luFactor, luSolve, gmres);
      DenseMasterApply(TMatrices(particles), Sizes(particles), master.coupling.op.a, b);
    }
  }

  /** Every particle among the first n holds its entry of fs, unless a later one of
      those n entries is the same particle object. */
  predicate FieldsHold(ps: seq<Particle>, fs: seq<Swe>, n: nat)
    requires |fs| == |ps| && n <= |ps|
    reads ps
  {
    forall i :: 0 <= i < n && LastOccurrence(ps, i, n) ==> ps[i].scatteredField == Some(fs[i])
  }

  /** The field stored for entry i: `b[index_block(i)]` as its coefficients. */
  function FieldOf(ps: seq<Particle>, layers: LayerSystem, omega: real, b: Vector, i: nat): Swe
    requires ValidParticles(ps) && |b| == Total(Sizes(ps)) && i < |ps|
  {
    ScatteredField(layers, omega, ps[i], b[IndexBlock(ps, i).0..IndexBlock(ps, i).1])
  }

  /** The fields `solve` stores, entry by entry. */
  function Fields(ps: seq<Particle>, layers: LayerSystem, omega: real, b: Vector): (fs: seq<Swe>)
    requires ValidParticles(ps) && |b| == Total(Sizes(ps))
    ensures |fs| == |ps| && forall i :: 0 <= i < |ps| ==> fs[i] == FieldOf(ps, layers, omega, b, i)
  {
    seq(|ps|, i requires 0 <= i < |ps| => FieldOf(ps, layers, omega, b, i))
  }

  /** Every stored field is a well-formed expansion under its particle's cutoffs,
      holding that particle's block of b. */
  lemma StoredFieldsWellFormed(ps: seq<Particle>, layers: LayerSystem, omega: real, b: Vector, i: nat)
    requires ValidParticles(ps) && |b| == Total(Sizes(ps)) && i < |ps|
    ensures WellFormed(FieldOf(ps, layers, omega, b, i))
    ensures FieldOf(ps, layers, omega, b, i).coefficients == Segment(Sizes(ps), b, i)
    ensures FieldOf(ps, layers, omega, b, i).lMax == ps[i].lMax && FieldOf(ps, layers, omega, b, i).mMax == ps[i].mMax
  {
    SliceIsSegment(ps, b, i);
  }

  /** The loop over the particles: each gets an outgoing expansion holding its block of
      b. A particle listed twice keeps the block of its last entry. */
  method StoreFields(ps: seq<Particle>, layers: LayerSystem, omega: real, b: Vector)
    requires ValidParticles(ps) && |b| == Total(Sizes(ps))
    modifies ps
    ensures FieldsHold(ps, Fields(ps, layers, omega, b), |ps|)
  {
    ghost var fs := Fields(ps, layers, omega, b);
    for i := 0 to |ps|
      invariant FieldsHold(ps, fs, i)
    {
      StoreField(ps, fs, i, FieldOf(ps, layers, omega, b, i));
    }
  }

  /** One iteration: `particle.scattered_field` of entry i becomes f. */
  method StoreField(ps: seq<Particle>, ghost fs: seq<Swe>, i: nat, f: Swe)
    requires |fs| == |ps| && i < |ps| && fs[i] == f && FieldsHold(ps, fs, i)
    modifies ps[i]
    ensures FieldsHold(ps, fs, i + 1)
  {
    label Before:
    ps[i].scatteredField := Some(f);
    forall j | 0 <= j < i + 1 && LastOccurrence(ps, j, i + 1)
      ensures ps[j].scatteredField == Some(fs[j])
    {
      if j < i {
        assert ps[i] != ps[j];
        assert LastOccurrence(ps, j, i);
        assert old@Before(ps[j].scatteredField) == Some(fs[j]);
      }
    }
  }

  /** Block i of b == T (a + w) is T^i (a^i + w^i). */
  lemma BlockEquation(ps: seq<Particle>, b: Vector, w: Vector, i: nat)
    requires ValidParticles(ps) && BlockShapes(TMatrices(ps), Sizes(ps)) && InitialFieldsFit(ps) && i < |ps|
    requires |b| == |w| == Total(Sizes(ps))
    requires b == BlockDiagApply(TMatrices(ps), Sizes(ps), Add(Stack(Sizes(ps), InitialFields(ps)), w))
    ensures Segment(Sizes(ps), b, i)
      == MatVec(ps[i].tMatrix, Add(ps[i].initialField.coefficients, Segment(Sizes(ps), w, i)))
  {
    var sizes, ts := Sizes(ps), TMatrices(ps);
    var a := Stack(sizes, InitialFields(ps));
    assert Segment(sizes, b, i) == MatVec(ts[i], Segment(sizes, Add(a, w), i));
    SegmentAdd(sizes, a, w, i);
    assert Segment(sizes, a, i) == ps[i].initialField.coefficients;
  }
}
