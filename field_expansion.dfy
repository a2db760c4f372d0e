/** Spherical and plane wave expansions as values: their construction, coefficient
    access, addition, and the validity-interval rules of the conversions between them
    (smuthi/field_expansion.py). Coefficients are `real` stand-ins for complex numbers. */
module FieldExpansion {
  import opened Common
  import opened MultipoleIndex
  import opened LinAlg

  /** The `type` attribute of a spherical wave expansion: 'regular' or 'outgoing'. */
  datatype SweKind = Regular | Outgoing

  /** A spherical wave expansion: wavenumber, multipole cutoffs, the flat coefficient
      vector and optional metadata (`None` where Python holds None). */
  datatype Swe = Swe(
    k: real,
    lMax: int,
    mMax: int,
    coefficients: Vector,
    kind: Option<SweKind>,
    referencePoint: Option<Point>,
    validBetween: Option<ValidRange>)

  /** Cutoffs are meaningful and the coefficient vector has one entry per multipole. */
  predicate WellFormed(s: Swe)
  {
    ValidCutoffs(s.lMax, s.mMax) && |s.coefficients| == BlockSize(s.lMax, s.mMax)
  }

  // ---------------------------------------------------------------------------
  // Construction

  /** The order cutoff the constructor stores, as written: `if m_max:` treats both
      None and 0 as missing and substitutes l_max. */
  function StoredMMaxAsWritten(lMax: int, mMax: Option<int>): int
  {
    if mMax.Some? && mMax.value != 0 then mMax.value else lMax
  }

  /** The order cutoff the constructor evidently intends: only a missing value
      defaults to l_max. */
  function StoredMMax(lMax: int, mMax: Option<int>): int
  {
    if mMax.Some? then mMax.value else lMax
  }

  /** A fresh expansion with cutoffs (lMax, m) and a zero coefficient vector;
      `np.zeros` refuses a negative length with ValueError. */
  function ZeroSwe(k: real, lMax: int, m: int, kind: Option<SweKind>, referencePoint: Option<Point>,
                   validBetween: Option<ValidRange>): (r: Result<Swe>)
    ensures r.Err? <==> BlockSize(lMax, m) < 0
    ensures r.Err? ==> r.error == ValueError
    ensures r.Ok? ==> (r.value.k == k && r.value.lMax == lMax && r.value.mMax == m
      && r.value.kind == kind && r.value.referencePoint == referencePoint && r.value.validBetween == validBetween
      && |r.value.coefficients| == BlockSize(lMax, m)
      && forall n :: 0 <= n < |r.value.coefficients| ==> r.value.coefficients[n] == 0.0)
  {
    var size := BlockSize(lMax, m);
    if size < 0 then Err(ValueError)
    else Ok(Swe(k, lMax, m, Zeros(size), kind, referencePoint, validBetween))
  }

  /** `SphericalWaveExpansion.__init__` as written. */
  function NewSweAsWritten(k: real, lMax: int, mMax: Option<int>, kind: Option<SweKind>,
                           referencePoint: Option<Point>, validBetween: Option<ValidRange>): (r: Result<Swe>)
    ensures r.Ok? ==> r.value.mMax == (if mMax == Some(0) || mMax.None? then lMax else mMax.value)
    ensures r.Ok? ==> |r.value.coefficients| == BlockSize(lMax, r.value.mMax)
  {
    ZeroSwe(k, lMax, StoredMMaxAsWritten(lMax, mMax), kind, referencePoint, validBetween)
  }

  /** `SphericalWaveExpansion.__init__` with the default applied only to a missing m_max;
      the rest of the model builds expansions with this one. */
  function NewSwe(k: real, lMax: int, mMax: Option<int>, kind: Option<SweKind>,
                  referencePoint: Option<Point>, validBetween: Option<ValidRange>): (r: Result<Swe>)
    ensures mMax.Some? && ValidCutoffs(lMax, mMax.value) ==> r.Ok? && r.value.mMax == mMax.value && WellFormed(r.value)
    ensures mMax.None? && lMax >= 0 ==> r.Ok? && r.value.mMax == lMax && WellFormed(r.value)
  {
    var m := StoredMMax(lMax, mMax);
    if ValidCutoffs(lMax, m) then
      BlockSizeRagged(lMax, m);
      ZeroSwe(k, lMax, m, kind, referencePoint, validBetween)
    else
      ZeroSwe(k, lMax, m, kind, referencePoint, validBetween)
  }

  // ---------------------------------------------------------------------------
  // Coefficient access

  /** `coefficients_tlm`: the entry at `multi_to_single_index`, read with Python's
      indexing rules (a negative position counts from the end). */
  function CoefficientsTlm(s: Swe, tau: int, l: int, m: int): (r: Result<real>)
    ensures r.Err? <==> !(-|s.coefficients| <= Flat(Multipole(tau, l, m), s.lMax, s.mMax) < |s.coefficients|)
    ensures r.Err? ==> r.error == IndexError
    ensures r.Ok? ==> r.value in s.coefficients
  {
    var n, len := Flat(Multipole(tau, l, m), s.lMax, s.mMax), |s.coefficients|;
    if 0 <= n < len then Ok(s.coefficients[n])
    else if -len <= n < 0 then Ok(s.coefficients[len + n])
    else Err(IndexError)
  }

  /** In a well-formed expansion every valid (tau, l, m) reads its own entry, and no
      two valid triples read the same one. */
  lemma CoefficientsTlmReadsOwnEntry(s: Swe, t: Multipole, u: Multipole)
    requires WellFormed(s) && Valid(t, s.lMax, s.mMax) && Valid(u, s.lMax, s.mMax)
    ensures 0 <= Flat(t, s.lMax, s.mMax) < |s.coefficients|
    ensures CoefficientsTlm(s, t.tau, t.l, t.m) == Ok(s.coefficients[Flat(t, s.lMax, s.mMax)])
    ensures t != u ==> Flat(t, s.lMax, s.mMax) != Flat(u, s.lMax, s.mMax)
  {
    FlatInRange(t, s.lMax, s.mMax);
    assert Multipole(t.tau, t.l, t.m) == t;
    if Flat(t, s.lMax, s.mMax) == Flat(u, s.lMax, s.mMax) {
      FlatInjective(t, u, s.lMax, s.mMax);
    }
  }

  /** Every entry of a well-formed expansion is the coefficient of exactly one valid
      multipole. */
  lemma EveryEntryIsACoefficient(s: Swe, n: int)
    requires WellFormed(s) && 0 <= n < |s.coefficients|
    ensures Valid(SingleToMulti(n, s.lMax, s.mMax), s.lMax, s.mMax)
    ensures var t := SingleToMulti(n, s.lMax, s.mMax); CoefficientsTlm(s, t.tau, t.l, t.m) == Ok(s.coefficients[n])
  {
    FlatSurjective(n, s.lMax, s.mMax);
  }

  /** A freshly built expansion has every coefficient zero. */
  lemma NewSweIsZero(k: real, lMax: int, mMax: int, t: Multipole)
    requires ValidCutoffs(lMax, mMax) && Valid(t, lMax, mMax)
    ensures var r := NewSwe(k, lMax, Some(mMax), None, None, None);
      r.Ok? && CoefficientsTlm(r.value, t.tau, t.l, t.m) == Ok(0.0)
  {
    var s := NewSwe(k, lMax, Some(mMax), None, None, None).value;
    CoefficientsTlmReadsOwnEntry(s, t, t);
  }

  /** With m_max = 0 the constructor as written stores m_max = l_max, so an expansion
      whose coefficient vector was sized for (l_max, 0), as the solver's result slices
      are, reads the coefficient of (tau, l, m) = (0, 1, 0) from position 1 although
      `multi_to_single_index` under (l_max, 0) places it at position 0. */
  lemma MMaxZeroMisreadAsWritten()
    ensures NewSweAsWritten(1.0, 2, Some(0), None, None, None).Ok?
    ensures NewSweAsWritten(1.0, 2, Some(0), None, None, None).value.mMax == 2
    ensures BlockSize(2, 0) == 4 && MultiToSingleIndex(0, 1, 0, 2, 0) == 0
    ensures CoefficientsTlm(Swe(1.0, 2, 2, [10.0, 20.0, 30.0, 40.0], None, None, None), 0, 1, 0) == Ok(20.0)
  {
    assert BlockSize(2, 2) == 16;
    var s := Swe(1.0, 2, 2, [10.0, 20.0, 30.0, 40.0], None, None, None);
    assert TauBlocksize(2, 2) == 8;
    assert RowOffset(1, 2) == 0 && Min(1, 2) == 1;
    assert MultiToSingleIndex(0, 1, 0, 2, 2) == 1;
    assert Flat(Multipole(0, 1, 0), s.lMax, s.mMax) == 1;
    assert s.coefficients[1] == 20.0;
    var r := CoefficientsTlm(s, 0, 1, 0);
    assert r == Ok(s.coefficients[1]);
  }

  /** The intended constructor keeps m_max = 0, and every coefficient is read from the
      position `multi_to_single_index` assigns it under the particle's own cutoffs. */
  lemma MMaxZeroKept(k: real, lMax: int, t: Multipole, c: Vector)
    requires ValidCutoffs(lMax, 0) && Valid(t, lMax, 0) && |c| == BlockSize(lMax, 0)
    ensures var r := NewSwe(k, lMax, Some(0), None, None, None);
      r.Ok? && r.value.mMax == 0
      && CoefficientsTlm(r.value.(coefficients := c), t.tau, t.l, t.m) == Ok(c[MultiToSingleIndex(t.tau, t.l, t.m, lMax, 0)])
  {
    var s := NewSwe(k, lMax, Some(0), None, None, None).value.(coefficients := c);
    CoefficientsTlmReadsOwnEntry(s, t, t);
  }

  // ---------------------------------------------------------------------------
  // Addition of spherical wave expansions

  /** The metadata `__add__` insists on. */
  predicate SweConsistent(a: Swe, b: Swe)
  {
    a.k == b.k && a.lMax == b.lMax && a.mMax == b.mMax && a.kind == b.kind && a.referencePoint == b.referencePoint
  }

  /** The validity of a sum as written: decided by the left operand alone; a missing
      right interval makes `min(None)` raise TypeError. */
  function SumValidityAsWritten(a: Option<ValidRange>, b: Option<ValidRange>): Result<Option<ValidRange>>
  {
    if a.None? then Ok(None)
    else if b.None? then Err(TypeError)
    else Ok(Some(Intersect(a.value, b.value)))
  }

  /** numpy's `x + y` on one-dimensional arrays: equal lengths add entrywise, an
      operand of length one is repeated along the other, and any other pair of lengths
      raises ValueError. */
  function BroadcastAdd(x: Vector, y: Vector): (r: Result<Vector>)
    ensures r.Ok? <==> |x| == |y| || |x| == 1 || |y| == 1
    ensures r.Err? ==> r.error == ValueError
    ensures r.Ok? ==> (|r.value| == (if |x| == 1 then |y| else |x|)
      && forall n :: 0 <= n < |r.value| ==> r.value[n] == x[if |x| == 1 then 0 else n] + y[if |y| == 1 then 0 else n])
  {
    if |x| == |y| then Ok(Add(x, y))
    else if |x| == 1 then Ok(seq(|y|, n requires 0 <= n < |y| => x[0] + y[n]))
    else if |y| == 1 then Ok(seq(|x|, n requires 0 <= n < |x| => x[n] + y[0]))
    else Err(ValueError)
  }

  /** Broadcasting addition does not depend on the order of its operands. */
  lemma BroadcastAddCommutes(x: Vector, y: Vector)
    ensures BroadcastAdd(x, y) == BroadcastAdd(y, x)
  {
    if BroadcastAdd(x, y).Ok? {
      var u, v := BroadcastAdd(x, y).value, BroadcastAdd(y, x).value;
      assert |u| == |v|;
      forall n | 0 <= n < |u| ensures u[n] == v[n] {
      }
      assert u == v;
    }
  }

  /** `SphericalWaveExpansion.__add__` as written: the sum is rebuilt through the
      constructor as written, its validity follows the left operand only, and its
      coefficients are numpy's sum of the two vectors. */
  function SweAddAsWritten(a: Swe, b: Swe): (r: Result<Swe>)
    ensures r.Ok? <==> (SweConsistent(a, b) && BlockSize(a.lMax, StoredMMaxAsWritten(a.lMax, Some(a.mMax))) >= 0
      && (a.validBetween.Some? ==> b.validBetween.Some?) && BroadcastAdd(a.coefficients, b.coefficients).Ok?)
    ensures !SweConsistent(a, b) ==> r == Err(ValueError)
    ensures (SweConsistent(a, b) && BlockSize(a.lMax, StoredMMaxAsWritten(a.lMax, Some(a.mMax))) >= 0
      && a.validBetween.Some? && b.validBetween.None?) ==> r == Err(TypeError)
    ensures r.Err? && r.error != TypeError ==> r.error == ValueError
    ensures r.Ok? ==> (r.value.k == a.k && r.value.lMax == a.lMax && r.value.kind == a.kind
      && r.value.referencePoint == a.referencePoint && r.value.mMax == (if a.mMax == 0 then a.lMax else a.mMax))
    ensures r.Ok? ==> (r.value.validBetween ==
      (if a.validBetween.None? then None else Some(Intersect(a.validBetween.value, b.validBetween.value))))
    ensures r.Ok? ==> r.value.coefficients == BroadcastAdd(a.coefficients, b.coefficients).value
    ensures r.Ok? && |a.coefficients| == |b.coefficients| ==> (|r.value.coefficients| == |a.coefficients|
      && forall n :: 0 <= n < |a.coefficients| ==> r.value.coefficients[n] == a.coefficients[n] + b.coefficients[n])
  {
    if !SweConsistent(a, b) then Err(ValueError)
    else match NewSweAsWritten(a.k, a.lMax, Some(a.mMax), a.kind, a.referencePoint, None)
      case Err(e) => Err(e)
      case Ok(s) =>
        match SumValidityAsWritten(a.validBetween, b.validBetween)
        case Err(e) => Err(e)
        case Ok(v) =>
          match BroadcastAdd(a.coefficients, b.coefficients)
          case Err(e) => Err(e)
          case Ok(c) => Ok(s.(validBetween := v, coefficients := c))
  }

  /** As written, the sum is defined one way round and raises TypeError the other. */
  lemma SweAddAsWrittenAsymmetric()
    ensures var a := Swe(1.0, 1, 1, [0.0, 0.0, 0.0, 0.0, 0.0, 0.0], None, None, None);
      var b := a.(validBetween := Some(ValidRange(At(0.0), At(1.0))));
      SweAddAsWritten(a, b).Ok? && SweAddAsWritten(a, b).value.validBetween.None?
      && SweAddAsWritten(b, a) == Err(TypeError)
  {
  }

  /** As written, adding two expansions with m_max = 0 yields one that claims
      m_max = l_max while holding the (l_max, 0)-sized coefficients. */
  lemma SweAddAsWrittenLosesMMaxZero()
    ensures var a := Swe(1.0, 1, 0, [1.0, 2.0], None, None, None);
      SweAddAsWritten(a, a).Ok? && SweAddAsWritten(a, a).value.mMax == 1
      && |SweAddAsWritten(a, a).value.coefficients| == 2 && BlockSize(1, 1) == 6
  {
  }

  /** The evidently intended validity of a sum: a missing interval is unbounded, so
      the sum is valid wherever both operands are. */
  function SumValidity(a: Option<ValidRange>, b: Option<ValidRange>): (r: Option<ValidRange>)
    ensures r.None? <==> a.None? && b.None?
  {
    if a.None? then b
    else if b.None? then a
    else Some(Intersect(a.value, b.value))
  }

  /** Points covered by an optional validity interval (None: everywhere). */
  predicate ValidAt(z: real, v: Option<ValidRange>)
  {
    v.None? || Within(z, v.value)
  }

  /** The intended sum is valid exactly where both operands are, whenever their
      intervals overlap. */
  lemma SumValidityMeaning(z: real, a: Option<ValidRange>, b: Option<ValidRange>)
    requires a.Some? && b.Some? ==>
      BoundLe(MaxBound(a.value.Lo(), b.value.Lo()), MinBound(a.value.Hi(), b.value.Hi()))
    ensures ValidAt(z, SumValidity(a, b)) <==> ValidAt(z, a) && ValidAt(z, b)
  {
    if a.Some? && b.Some? {
      IntersectWithin(z, a.value, b.value);
    }
  }

  /** `SphericalWaveExpansion.__add__` with the constructor's default corrected and the
      validity rule made symmetric. */
  function SweAdd(a: Swe, b: Swe): (r: Result<Swe>)
    ensures r.Ok? <==> (SweConsistent(a, b) && BlockSize(a.lMax, a.mMax) >= 0
      && BroadcastAdd(a.coefficients, b.coefficients).Ok?)
    ensures r.Err? ==> r.error == ValueError
    ensures r.Ok? ==> (SweConsistent(r.value, a) && SweConsistent(r.value, b)
      && r.value.validBetween == SumValidity(a.validBetween, b.validBetween)
      && r.value.coefficients == BroadcastAdd(a.coefficients, b.coefficients).value)
    ensures r.Ok? && |a.coefficients| == |b.coefficients| ==> (|r.value.coefficients| == |a.coefficients|
      && forall n :: 0 <= n < |a.coefficients| ==> r.value.coefficients[n] == a.coefficients[n] + b.coefficients[n])
  {
    if !SweConsistent(a, b) then Err(ValueError)
    else match NewSwe(a.k, a.lMax, Some(a.mMax), a.kind, a.referencePoint, None)
      case Err(e) => Err(e)
      case Ok(s) =>
        match BroadcastAdd(a.coefficients, b.coefficients)
        case Err(e) => Err(e)
        case Ok(c) => Ok(s.(validBetween := SumValidity(a.validBetween, b.validBetween), coefficients := c))
  }

  /** The intended sum is commutative, including its validity and its errors. */
  lemma SweAddCommutes(a: Swe, b: Swe)
    ensures SweAdd(a, b) == SweAdd(b, a)
  {
    BroadcastAddCommutes(a.coefficients, b.coefficients);
    if SweAdd(a, b).Ok? && a.validBetween.Some? && b.validBetween.Some? {
      IntersectCommutes(a.validBetween.value, b.validBetween.value);
    }
  }

  /** The sum of two well-formed expansions is well formed and each of its
      coefficients is the sum of the operands' coefficients. */
  lemma SweAddCoefficients(a: Swe, b: Swe, t: Multipole)
    requires WellFormed(a) && WellFormed(b) && SweConsistent(a, b) && Valid(t, a.lMax, a.mMax)
    ensures SweAdd(a, b).Ok? && WellFormed(SweAdd(a, b).value)
    ensures CoefficientsTlm(SweAdd(a, b).value, t.tau, t.l, t.m).Ok?
    ensures CoefficientsTlm(SweAdd(a, b).value, t.tau, t.l, t.m).value
      == CoefficientsTlm(a, t.tau, t.l, t.m).value + CoefficientsTlm(b, t.tau, t.l, t.m).value
  {
    BlockSizeRagged(a.lMax, a.mMax);
    var s := SweAdd(a, b).value;
    CoefficientsTlmReadsOwnEntry(a, t, t);
    CoefficientsTlmReadsOwnEntry(b, t, t);
    CoefficientsTlmReadsOwnEntry(s, t, t);
  }

  // ---------------------------------------------------------------------------
  // Plane wave expansions

  /** The `type` attribute of a plane wave expansion: 'upgoing' or 'downgoing'. */
  datatype PweKind = Upgoing | Downgoing

  /** A grid argument: a scalar, or anything with a length. */
  datatype GridArg = Scalar(x: real) | Samples(xs: seq<real>)

  /** The grid stored by the constructor: a scalar becomes a one-element array. */
  function Grid(g: GridArg): (r: seq<real>)
    ensures g.Scalar? ==> r == [g.x]
    ensures g.Samples? ==> r == g.xs
  {
    match g
    case Scalar(x) => [x]
    case Samples(xs) => xs
  }

  /** Coefficient array indexed by polarization, k_parallel index, azimuthal index. */
  type Array3 = seq<seq<seq<real>>>

  predicate HasShape(c: Array3, p: nat, q: nat, s: nat)
  {
    |c| == p && forall i :: 0 <= i < p ==> |c[i]| == q && forall j :: 0 <= j < q ==> |c[i][j]| == s
  }

  predicate SameShape(c: Array3, d: Array3)
  {
    |c| == |d| && forall i :: 0 <= i < |c| ==>
      |c[i]| == |d[i]| && forall j :: 0 <= j < |c[i]| ==> |c[i][j]| == |d[i][j]|
  }

  function ZeroArray3(p: nat, q: nat, s: nat): (c: Array3)
    ensures HasShape(c, p, q, s)
    ensures forall i, j, h :: 0 <= i < p && 0 <= j < q && 0 <= h < s ==> c[i][j][h] == 0.0
  {
    seq(p, i => seq(q, j => seq(s, h => 0.0)))
  }

  function AddArray3(c: Array3, d: Array3): (e: Array3)
    requires SameShape(c, d)
    ensures SameShape(e, c)
    ensures forall i, j, h :: 0 <= i < |c| && 0 <= j < |c[i]| && 0 <= h < |c[i][j]| ==>
      e[i][j][h] == c[i][j][h] + d[i][j][h]
  {
    seq(|c|, i requires 0 <= i < |c| =>
      seq(|c[i]|, j requires 0 <= j < |c[i]| =>
        seq(|c[i][j]|, h requires 0 <= h < |c[i][j]| => c[i][j][h] + d[i][j][h])))
  }

  datatype Pwe = Pwe(
    k: real,
    kParallel: seq<real>,
    azimuthalAngles: seq<real>,
    kind: Option<PweKind>,
    referencePoint: Option<Point>,
    validBetween: Option<ValidRange>,
    coefficients: Array3)

  /** The (2, p, q) array whose entry (i, j, h) is f(i, j, h). */
  function Tabulate(p: nat, q: nat, f: (nat, nat, nat) -> real): (c: Array3)
    ensures HasShape(c, 2, p, q)
    ensures forall i, j, h :: 0 <= i < 2 && 0 <= j < p && 0 <= h < q ==> c[i][j][h] == f(i, j, h)
  {
    seq(2, (i: int) requires 0 <= i < 2 =>
      seq(p, (j: int) requires 0 <= j < p =>
        seq(q, (h: int) requires 0 <= h < q => f(i, j, h))))
  }

  /** The coefficient array has shape (2, |k_parallel|, |azimuthal_angles|). */
  predicate PweWellFormed(p: Pwe)
  {
    HasShape(p.coefficients, 2, |p.kParallel|, |p.azimuthalAngles|)
  }

  /** `PlaneWaveExpansion.__init__`. */
  function NewPwe(k: real, kParallel: GridArg, azimuthalAngles: GridArg, kind: Option<PweKind>,
                  referencePoint: Option<Point>, validBetween: Option<ValidRange>): (p: Pwe)
    ensures PweWellFormed(p)
    ensures p.kParallel == Grid(kParallel) && p.azimuthalAngles == Grid(azimuthalAngles)
    ensures kParallel.Scalar? ==> |p.kParallel| == 1
    ensures p.k == k && p.kind == kind && p.referencePoint == referencePoint && p.validBetween == validBetween
    ensures forall i, j, h :: 0 <= i < 2 && 0 <= j < |p.kParallel| && 0 <= h < |p.azimuthalAngles| ==>
      p.coefficients[i][j][h] == 0.0
  {
    var kp, az := Grid(kParallel), Grid(azimuthalAngles);
    Pwe(k, kp, az, kind, referencePoint, validBetween, ZeroArray3(2, |kp|, |az|))
  }

  /** The metadata `__add__` insists on; the grids are compared as whole arrays. */
  predicate PweConsistent(a: Pwe, b: Pwe)
  {
    a.k == b.k && a.kParallel == b.kParallel && a.azimuthalAngles == b.azimuthalAngles
    && a.kind == b.kind && a.referencePoint == b.referencePoint
  }

  /** `PlaneWaveExpansion.__add__`: both validity intervals are required, and the sum
      is valid on their intersection. */
  function PweAdd(a: Pwe, b: Pwe): (r: Result<Pwe>)
    ensures r.Ok? <==> (PweConsistent(a, b) && a.validBetween.Some? && b.validBetween.Some?
      && SameShape(a.coefficients, b.coefficients))
    ensures !PweConsistent(a, b) ==> r == Err(ValueError)
    ensures PweConsistent(a, b) && (a.validBetween.None? || b.validBetween.None?) ==> r == Err(TypeError)
    ensures r.Ok? ==> (PweConsistent(r.value, a) && PweConsistent(r.value, b)
      && r.value.validBetween == Some(Intersect(a.validBetween.value, b.validBetween.value))
      && SameShape(r.value.coefficients, a.coefficients)
      && forall i, j, h :: 0 <= i < |a.coefficients| && 0 <= j < |a.coefficients[i]| && 0 <= h < |a.coefficients[i][j]| ==>
           r.value.coefficients[i][j][h] == a.coefficients[i][j][h] + b.coefficients[i][j][h])
  {
    if !PweConsistent(a, b) then Err(ValueError)
    else
      var s := NewPwe(a.k, Samples(a.kParallel), Samples(a.azimuthalAngles), a.kind, a.referencePoint, None);
      if a.validBetween.None? || b.validBetween.None? then Err(TypeError)
      else if !SameShape(a.coefficients, b.coefficients) then Err(ValueError)
      else Ok(s.(validBetween := Some(Intersect(a.validBetween.value, b.validBetween.value)),
                 coefficients := AddArray3(a.coefficients, b.coefficients)))
  }

  /** Adding plane wave expansions is commutative. */
  lemma PweAddCommutes(a: Pwe, b: Pwe)
    ensures PweAdd(a, b) == PweAdd(b, a)
  {
    if PweAdd(a, b).Ok? {
      IntersectCommutes(a.validBetween.value, b.validBetween.value);
      assert PweAdd(b, a).Ok?;
      var x, y := PweAdd(a, b).value.coefficients, PweAdd(b, a).value.coefficients;
      assert |x| == |y|;
      forall i | 0 <= i < |x| ensures x[i] == y[i] {
        assert |x[i]| == |y[i]|;
        forall j | 0 <= j < |x[i]| ensures x[i][j] == y[i][j] {
          assert |x[i][j]| == |y[i][j]|;
          forall h | 0 <= h < |x[i][j]| ensures x[i][j][h] == y[i][j][h] {
          }
        }
      }
      assert x == y;
    }
  }

  /** Consistent well-formed operands have arrays of one shape, so their sum is
      defined exactly when both have validity, and it is well formed. */
  lemma PweAddWellFormed(a: Pwe, b: Pwe)
    requires PweWellFormed(a) && PweWellFormed(b) && PweConsistent(a, b)
    ensures PweAdd(a, b).Ok? <==> a.validBetween.Some? && b.validBetween.Some?
    ensures PweAdd(a, b).Ok? ==> PweWellFormed(PweAdd(a, b).value)
  {
  }

  /** The sum of two well-formed plane wave expansions is well formed and valid
      exactly where both operands are, when their intervals overlap. */
  lemma PweAddValidity(a: Pwe, b: Pwe, z: real)
    requires PweWellFormed(a) && PweWellFormed(b) && PweConsistent(a, b)
    requires a.validBetween.Some? && b.validBetween.Some?
    requires BoundLe(MaxBound(a.validBetween.value.Lo(), b.validBetween.value.Lo()),
                     MinBound(a.validBetween.value.Hi(), b.validBetween.value.Hi()))
    ensures PweAdd(a, b).Ok? && PweWellFormed(PweAdd(a, b).value)
    ensures Within(z, PweAdd(a, b).value.validBetween.value) <==>
      Within(z, a.validBetween.value) && Within(z, b.validBetween.value)
  {
    IntersectWithin(z, a.validBetween.value, b.validBetween.value);
  }

  // ---------------------------------------------------------------------------
  // Validity rules of the conversions

  /** `pwe_to_swe_conversion`: the reference point must lie in the plane wave
      expansion's domain of validity. The result is built by the constructor as
      written, so an m_max of 0 is stored as l_max. `k_z_grid` then needs the plane
      wave expansion's type, and the translation of the reference point needs its
      reference point. The phase-weighted coefficients need an array of the grids'
      shape, and storing `np.squeeze(an)` in one entry needs a single number, which
      the loops produce only when `IntegralIsScalar` holds. The coefficient of each
      multipole t the loops visit is the integral `an(t)`; the remaining entries keep
      the constructor's zeros. */
  function PweToSwe(pwe: Pwe, lMax: nat, mMax: nat, referencePoint: Point, an: Multipole -> real): (r: Result<Swe>)
    requires ValidCutoffs(lMax, mMax)
    ensures r.Err? <==> (pwe.validBetween.None? || !Within(referencePoint.z, pwe.validBetween.value)
      || pwe.kind.None? || pwe.referencePoint.None? || !PweWellFormed(pwe)
      || (lMax >= 1 && !IntegralIsScalar(pwe)))
    ensures pwe.validBetween.None? ==> r == Err(TypeError)
    ensures pwe.validBetween.Some? && !Within(referencePoint.z, pwe.validBetween.value) ==> r == Err(ValueError)
    ensures pwe.validBetween.Some? && Within(referencePoint.z, pwe.validBetween.value) && pwe.kind.None? ==>
      r == Err(ValueError)
    ensures (pwe.validBetween.Some? && Within(referencePoint.z, pwe.validBetween.value) && pwe.kind.Some?
      && pwe.referencePoint.None?) ==> r == Err(TypeError)
    ensures r.Err? && pwe.validBetween.Some? && pwe.kind.Some? && pwe.referencePoint.Some? ==> r == Err(ValueError)
    ensures r.Ok? ==> (WellFormed(r.value) && r.value.lMax == lMax && r.value.mMax == (if mMax == 0 then lMax else mMax)
      && r.value.k == pwe.k && r.value.kind == Some(Regular) && r.value.referencePoint == Some(referencePoint)
      && r.value.validBetween.None?)
  {
    if pwe.validBetween.None? then Err(TypeError)
    else if !Within(referencePoint.z, pwe.validBetween.value) then Err(ValueError)
    else
      BlockSizeRagged(lMax, StoredMMaxAsWritten(lMax, Some(mMax)));
      var blank := NewSweAsWritten(pwe.k, lMax, Some(mMax), Some(Regular), Some(referencePoint), None);
      if blank.Err? then blank
      else if pwe.kind.None? then Err(ValueError)
      else if pwe.referencePoint.None? then Err(TypeError)
      else if !PweWellFormed(pwe) then Err(ValueError)
      else if lMax >= 1 && !IntegralIsScalar(pwe) then Err(ValueError)
      else
        var s := blank.value;
        Ok(s.(coefficients := seq(|s.coefficients|, n requires 0 <= n < |s.coefficients| =>
          var t := SingleToMulti(n, lMax, s.mMax);
          if Valid(t, lMax, mMax) then an(t) else 0.0)))
  }

  /** `np.squeeze(an)` in `pwe_to_swe_conversion` is a single number: with more than
      one k_parallel the double trapezoid integral is a scalar, and otherwise `an` has
      the grid's shape (|k_parallel|, |azimuthal_angles|), which squeezes to a number
      only when that shape is (1, 1). */
  predicate IntegralIsScalar(pwe: Pwe)
  {
    |pwe.kParallel| > 1 || (|pwe.kParallel| == 1 && |pwe.azimuthalAngles| == 1)
  }

  /** With one k_parallel and two azimuthal angles, `an` squeezes to two numbers, so
      storing it in a single coefficient raises ValueError. */
  lemma PweToSweSingleKParallelFails(an: Multipole -> real)
    ensures var pwe := NewPwe(1.0, Samples([0.5]), Samples([0.0, 1.0]), Some(Upgoing), Some(Point(0.0, 0.0, 0.0)),
                              Some(ValidRange(NegInf, PosInf)));
      PweToSwe(pwe, 1, 1, Point(0.0, 0.0, 0.0), an) == Err(ValueError)
  {
  }

  /** Every multipole the conversion loops visit holds its own integral, and every
      other multipole of the stored cutoffs reads zero. */
  lemma PweToSweCoefficients(pwe: Pwe, lMax: nat, mMax: nat, referencePoint: Point, an: Multipole -> real, t: Multipole)
    requires ValidCutoffs(lMax, mMax)
    requires PweToSwe(pwe, lMax, mMax, referencePoint, an).Ok?
    ensures Valid(t, lMax, mMax) ==> CoefficientsTlm(PweToSwe(pwe, lMax, mMax, referencePoint, an).value, t.tau, t.l, t.m) == Ok(an(t))
    ensures var s := PweToSwe(pwe, lMax, mMax, referencePoint, an).value;
      Valid(t, lMax, s.mMax) && !Valid(t, lMax, mMax) ==> CoefficientsTlm(s, t.tau, t.l, t.m) == Ok(0.0)
  {
    var s := PweToSwe(pwe, lMax, mMax, referencePoint, an).value;
    if Valid(t, lMax, s.mMax) {
      SingleToMultiOfFlat(t, lMax, s.mMax);
      CoefficientsTlmReadsOwnEntry(s, t, t);
    }
  }

  /** The coefficients `coefficients_tlm` reads for every multipole under the
      expansion's own cutoffs, in the loops of `swe_to_pwe_conversion`, all exist. */
  predicate CoefficientsReadable(s: Swe)
  {
    forall tau, l, m | 0 <= tau < 2 && 1 <= l <= s.lMax && -Min(l, s.mMax) <= m <= Min(l, s.mMax) ::
      CoefficientsTlm(s, tau, l, m).Ok?
  }

  /** A well-formed expansion has every coefficient the conversion reads. */
  lemma WellFormedIsReadable(s: Swe)
    requires WellFormed(s)
    ensures CoefficientsReadable(s)
  {
    forall tau, l, m | 0 <= tau < 2 && 1 <= l <= s.lMax && -Min(l, s.mMax) <= m <= Min(l, s.mMax)
      ensures CoefficientsTlm(s, tau, l, m).Ok?
    {
      CoefficientsTlmReadsOwnEntry(s, Multipole(tau, l, m), Multipole(tau, l, m));
    }
  }

  /** `swe_to_pwe_conversion`: an up-going expansion valid from the spherical
      expansion's reference z up to the top of `validBetween`, and a down-going one
      valid from the bottom of `validBetween` up to that z, both on the given grids.
      Reading a coefficient the vector lacks raises IndexError. The plane wave
      coefficients, `g(kind, pol, kIndex, alphaIndex)`, come from the numerical
      integration. */
  function SweToPwe(swe: Swe, kParallel: GridArg, azimuthalAngles: GridArg, referencePoint: Point,
                    validBetween: ValidRange, g: (PweKind, nat, nat, nat) -> real): (r: Result<(Pwe, Pwe)>)
    ensures r.Err? <==> swe.referencePoint.None? || !CoefficientsReadable(swe)
    ensures swe.referencePoint.None? ==> r == Err(TypeError)
    ensures swe.referencePoint.Some? && !CoefficientsReadable(swe) ==> r == Err(IndexError)
    ensures r.Ok? ==> var (up, down) := r.value;
      PweWellFormed(up) && PweWellFormed(down)
      && up.kParallel == Grid(kParallel) && down.kParallel == Grid(kParallel)
      && up.azimuthalAngles == Grid(azimuthalAngles) && down.azimuthalAngles == Grid(azimuthalAngles)
      && up.kind == Some(Upgoing) && down.kind == Some(Downgoing)
      && up.k == swe.k && down.k == swe.k
      && up.referencePoint == Some(referencePoint) && down.referencePoint == Some(referencePoint)
      && up.validBetween == Some(ValidRange(At(swe.referencePoint.value.z), validBetween.Hi()))
      && down.validBetween == Some(ValidRange(validBetween.Lo(), At(swe.referencePoint.value.z)))
  {
    if swe.referencePoint.None? then Err(TypeError)
    else if !CoefficientsReadable(swe) then Err(IndexError)
    else
      var z := swe.referencePoint.value.z;
      var up := NewPwe(swe.k, kParallel, azimuthalAngles, Some(Upgoing), Some(referencePoint),
                       Some(ValidRange(At(z), validBetween.Hi())));
      var down := NewPwe(swe.k, kParallel, azimuthalAngles, Some(Downgoing), Some(referencePoint),
                         Some(ValidRange(validBetween.Lo(), At(z))));
      var p, q := |up.kParallel|, |up.azimuthalAngles|;
      Ok((up.(coefficients := Tabulate(p, q, (i: nat, j: nat, h: nat) => g(Upgoing, i, j, h))),
          down.(coefficients := Tabulate(p, q, (i: nat, j: nat, h: nat) => g(Downgoing, i, j, h)))))
  }

  /** With (l_max, m_max) = (1, 0) an expansion needs two coefficients, and
      `coefficients_tlm(1, 1, 0)` reads the second. */
  lemma ShortVectorReadFails(swe: Swe)
    requires swe.lMax == 1 && swe.mMax == 0 && |swe.coefficients| == 1
    ensures CoefficientsTlm(swe, 1, 1, 0) == Err(IndexError)
  {
    assert Flat(Multipole(1, 1, 0), swe.lMax, swe.mMax) == 1 by {
      assert TauBlocksize(1, 0) == 1 && RowOffset(1, 0) == 0;
    }
  }

  /** Converting such an expansion with a single coefficient raises IndexError. */
  lemma SweToPweShortVector(swe: Swe, kParallel: GridArg, azimuthalAngles: GridArg, referencePoint: Point,
                            validBetween: ValidRange, g: (PweKind, nat, nat, nat) -> real)
    requires swe.lMax == 1 && swe.mMax == 0 && |swe.coefficients| == 1 && swe.referencePoint.Some?
    ensures SweToPwe(swe, kParallel, azimuthalAngles, referencePoint, validBetween, g) == Err(IndexError)
  {
    ShortVectorReadFails(swe);
    assert !CoefficientsReadable(swe);
  }

  /** When the spherical expansion's z lies inside `validBetween`, the two plane wave
      expansions split that interval at z: together they cover it, and they share
      only z itself. */
  lemma SweToPweSplitsInterval(swe: Swe, kParallel: GridArg, azimuthalAngles: GridArg, referencePoint: Point,
                               validBetween: ValidRange, g: (PweKind, nat, nat, nat) -> real, z: real)
    requires swe.referencePoint.Some? && CoefficientsReadable(swe) && Within(swe.referencePoint.value.z, validBetween)
    ensures var r := SweToPwe(swe, kParallel, azimuthalAngles, referencePoint, validBetween, g);
      r.Ok? &&
      (Within(z, validBetween) <==> Within(z, r.value.0.validBetween.value) || Within(z, r.value.1.validBetween.value))
      && (Within(z, r.value.0.validBetween.value) && Within(z, r.value.1.validBetween.value) ==> z == swe.referencePoint.value.z)
  {
    var zs := swe.referencePoint.value.z;
    var up := ValidRange(At(zs), validBetween.Hi());
    var down := ValidRange(validBetween.Lo(), At(zs));
    BoundLeTotal(validBetween.first, validBetween.second);
    assert up.Lo() == At(zs) && up.Hi() == validBetween.Hi();
    assert down.Lo() == validBetween.Lo() && down.Hi() == At(zs);
  }
}
