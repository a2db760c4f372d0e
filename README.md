# smuthi linear system, modelled in Dafny

smuthi computes how light scatters off many particles placed in a planar stack of
layers. Each particle's field is stored as a spherical wave expansion (SWE): a flat
vector of coefficients indexed by a polarisation tau, a degree l and an order m, up to
the cutoffs `l_max` and `m_max`. Plane wave expansions (PWE) carry the field between
particles and layers. The scattered coefficients b of all particles solve the linear
system

    M b = T a,   M = 1 - T W

where a holds the initial-field coefficients, T is block-diagonal with one T-matrix per
particle, and W is the particle coupling. This project models two things. The first is
the expansion bookkeeping of `smuthi/field_expansion.py`. The second is the
linear-system machinery of `smuthi/linear_system.py`. It proves what both promise.

Modules, one file each:

- `Common` (`common.dfy`): shared types. It defines `Option`, `Result` with Python's
  exception kinds, points, and validity intervals `(z1, z2)` whose ends may be
  infinite. It also proves the `min`/`max` algebra the expansions use on them.
- `MultipoleIndex` (`multipole_index.dfy`): `multi_to_single_index` and `blocksize`.
  It proves that the flat numbering is a bijection from the valid (tau, l, m) onto
  `0 .. blocksize - 1`, that it follows the loop order, and that `blocksize` equals the
  closed-form and ragged counts.
- `FieldExpansion` (`field_expansion.dfy`): SWE and PWE as values. It covers
  construction, `coefficients_tlm`, `__add__`, and the validity-interval logic of
  `pwe_to_swe_conversion` and `swe_to_pwe_conversion`.
- `LinAlg` (`linalg.dfy`): vectors, matrices, dot products and the algebra the
  operators need.
- `Particles` (`particles.dfy`): the particle objects. Each has its cutoffs,
  T-matrix, initial field, and a `scatteredField` field that `solve` writes.
- `SystemLayout` (`system_layout.dfy`): `SystemMatrix`. It covers `shape`,
  `index_block` and `index`, and the segments of a system vector that belong to each
  particle.
- `CouplingLookup` (`coupling_lookup.dfy`): the radial-lookup bucket lists that
  `CouplingMatrix.__init__` builds. There is one bucket per flat index under the
  global cutoffs.
- `CouplingMatrixOperator` (`coupling_matrix.dfy`): `CouplingMatrix`. W is either
  assembled densely block by block, or applied on the fly bucket by bucket, with the
  errors the constructor and the operator raise.
- `TMatrixOperator` (`t_matrix.dfy`): `TMatrix`. It applies T to vectors and to
  matrices, and builds the right-hand side T a.
- `MasterMatrixOperator` (`master_matrix.dfy`): `MasterMatrix`, that is
  M = 1 - T W. It is stored densely or applied as `x - T(W x)`.
- `LinearSystemSolve` (`linear_system.dfy`): `LinearSystem.solve`. It covers the LU
  path and its cached factors, the GMRES path, the refused configurations, and the
  storing of each particle's block of b as its scattered field.

Form of the model:

- Pure code is modelled by datatypes and functions.
- Loops are methods with loop invariants. Examples are the lookup filling, the dense
  assembly, the bucket-by-bucket application, the block-diagonal products and the
  final loop over the particles.
- Objects whose fields change are classes. Examples are the particle's scattered
  field and the master matrix's cached LU factors.
- Each method is proved against a specification function, and the properties are
  proved about those functions.

## Model

| member | source | states |
|---|---|---|
| MultipoleIndex.FlatInRange | smuthi/field_expansion.py:9-61 | every valid (tau, l, m) gets a single index in 0 .. blocksize - 1 |
| MultipoleIndex.FlatInjective | smuthi/field_expansion.py:9-61 | two valid multipoles with the same single index are equal |
| MultipoleIndex.FlatMonotone | smuthi/field_expansion.py:9-61 | the numbering follows the documented order: tau first, then l, then m |
| MultipoleIndex.FlatSurjective | smuthi/field_expansion.py:9-61 | every index below blocksize is the index of a valid multipole, recovered by the inverse SingleToMulti |
| MultipoleIndex.SingleToMultiOfFlat | smuthi/field_expansion.py:9-61 | the inverse recovers every valid multipole from its index |
| MultipoleIndex.FlatDecomposition | smuthi/field_expansion.py:54-60 | the index is the tau offset, plus the ragged count of earlier degrees, plus m + min(l, m_max) |
| MultipoleIndex.MultiToSingleIndex | smuthi/field_expansion.py:9-61 | `multi_to_single_index` as the closed form the source computes; its meaning is stated by FlatInRange, FlatInjective, FlatMonotone and FlatSurjective |
| MultipoleIndex.TauBlocksizeIsRaggedCount | smuthi/field_expansion.py:50-54 | the closed form m_max(m_max+2) + (l_max-m_max)(2m_max+1) is the sum over l of 2 min(l, m_max) + 1 |
| MultipoleIndex.BlockSizeCount | smuthi/field_expansion.py:64-72 | blocksize is twice the per-polarisation count, in both the ragged and the closed form |
| MultipoleIndex.BlockSize | smuthi/field_expansion.py:64-72 | `blocksize` is one past the index of the last coefficient (tau 1, l = l_max, m = m_max); BlockSizeCount states it as a count |
| FieldExpansion.ZeroSwe | smuthi/field_expansion.py:76-86 | the constructor keeps every argument and zeroes blocksize coefficients; a negative size is a ValueError |
| FieldExpansion.NewSweAsWritten | smuthi/field_expansion.py:76-86 | as written, m_max None or 0 is replaced by l_max, and the coefficient vector is sized for the stored cutoffs |
| FieldExpansion.NewSwe | smuthi/field_expansion.py:76-86 | with the corrected test, a given m_max is kept and a missing one becomes l_max; the result is well-formed |
| FieldExpansion.NewSweIsZero | smuthi/field_expansion.py:83 | a new expansion reads 0 at every valid multipole |
| FieldExpansion.CoefficientsTlm | smuthi/field_expansion.py:88-90 | coefficients_tlm fails, with IndexError, exactly when the single index lies outside -len .. len - 1 (Python indexing); otherwise it returns an entry of the vector |
| FieldExpansion.CoefficientsTlmReadsOwnEntry | smuthi/field_expansion.py:88-90 | on a well-formed expansion every valid multipole reads its own entry, and distinct multipoles read distinct entries |
| FieldExpansion.EveryEntryIsACoefficient | smuthi/field_expansion.py:88-90 | every entry of a well-formed expansion is read by exactly one valid multipole |
| FieldExpansion.MMaxZeroMisreadAsWritten | smuthi/field_expansion.py:79-82 | m_max=0 is stored as l_max, so 4 coefficients sized for m_max=0 are read as if m_max were 2 |
| FieldExpansion.MMaxZeroKept | smuthi/field_expansion.py:79-82 | with the corrected test, m_max=0 is kept and each multipole reads its own entry |
| FieldExpansion.SweAddAsWritten | smuthi/field_expansion.py:112-124 | as written: inconsistent operands raise ValueError; a left validity with a missing right one raises TypeError from `min(None)`; coefficient vectors numpy cannot broadcast raise ValueError; otherwise the sum is rebuilt by the as-written constructor (m_max 0 stored as l_max), takes the intersected validity when the left operand has one and None otherwise, and holds the broadcast sum of the coefficients |
| FieldExpansion.SweAddAsWrittenAsymmetric | smuthi/field_expansion.py:118-122 | None + (0, 1) gives no validity, while (0, 1) + None raises TypeError |
| FieldExpansion.SweAddAsWrittenLosesMMaxZero | smuthi/field_expansion.py:116-117 | the sum of two m_max=0 expansions is rebuilt with m_max = l_max around the old coefficients |
| FieldExpansion.SumValidity | smuthi/field_expansion.py:118-122 | the corrected validity of a sum is None only when both operands have none |
| FieldExpansion.SumValidityMeaning | smuthi/field_expansion.py:118-122 | a sum is valid at z exactly when both operands are, if their ranges overlap |
| FieldExpansion.SweAdd | smuthi/field_expansion.py:112-124 | corrected sum: defined exactly when the operands are consistent and their coefficient vectors broadcast, ValueError otherwise; it is rebuilt by the corrected constructor, is consistent with both operands, has the symmetric SumValidity, and holds the broadcast sum (the entrywise sum for equal lengths) |
| FieldExpansion.SweAddCommutes | smuthi/field_expansion.py:112-124 | the corrected sum is symmetric, errors included |
| FieldExpansion.SweAddCoefficients | smuthi/field_expansion.py:123 | coefficients_tlm of a sum is the sum of the operands' coefficients_tlm |
| FieldExpansion.BroadcastAdd | smuthi/field_expansion.py:123 | numpy's `+` on two 1-D arrays: defined exactly when the lengths agree or one of them is 1 (ValueError otherwise); a length-1 operand is repeated along the other, and every entry is the sum of the matching entries |
| FieldExpansion.BroadcastAddCommutes | smuthi/field_expansion.py:123 | the broadcast sum is symmetric, errors included |
| FieldExpansion.Grid | smuthi/field_expansion.py:167-174 | a scalar argument becomes a one-element grid, and a sequence is kept |
| FieldExpansion.ZeroArray3 | smuthi/field_expansion.py:184 | the zero array has the requested shape and only zeros |
| FieldExpansion.AddArray3 | smuthi/field_expansion.py:223 | the array sum has the operands' shape and holds the entrywise sums |
| FieldExpansion.NewPwe | smuthi/field_expansion.py:164-184 | the constructor keeps its arguments, stores the grids, and zeroes a 2 x len(k_parallel) x len(azimuthal_angles) array |
| FieldExpansion.PweAdd | smuthi/field_expansion.py:214-224 | a sum is defined exactly when the operands are consistent, both have validity and the coefficient arrays have one shape; inconsistency or a shape mismatch is ValueError, a missing validity TypeError; the sum is consistent with both, intersects their validity and adds entrywise (grids compared whole and no broadcasting of length-1 axes, see Left out) |
| FieldExpansion.PweAddCommutes | smuthi/field_expansion.py:214-224 | the modelled PWE addition is symmetric, errors included (see Left out for grid broadcasting) |
| FieldExpansion.PweAddWellFormed | smuthi/field_expansion.py:214-224 | for consistent well-formed operands the shapes always agree: the sum is defined exactly when both have validity, and it is well formed |
| FieldExpansion.PweAddValidity | smuthi/field_expansion.py:221-222 | a sum of overlapping ranges is valid at z exactly when both operands are |
| FieldExpansion.PweToSwe | smuthi/field_expansion.py:269-304 | conversion fails exactly when, checked in the source's order, the validity is None (TypeError from `min`), the reference height lies outside it (ValueError), the PWE has no type (ValueError from `k_z_grid`), no reference point (TypeError), coefficients not of the grids' shape (ValueError at line 289; see Left out for broadcastable shapes), or, with l_max >= 1, an `an` that does not squeeze to one number (ValueError at line 303: at most one k_parallel and not exactly one angle); otherwise the result is a regular, well-formed SWE about the reference point built by the constructor as written, so m_max 0 is stored as l_max |
| FieldExpansion.PweToSweSingleKParallelFails | smuthi/field_expansion.py:298-303 | one k_parallel with two azimuthal angles and l_max 1: storing the squeezed `an` raises ValueError |
| FieldExpansion.PweToSweCoefficients | smuthi/field_expansion.py:291-303 | every multipole the loops visit holds its computed coefficient, and a multipole of the stored cutoffs the loops skip (m_max 0 stored as l_max) reads 0 |
| FieldExpansion.SweToPwe | smuthi/field_expansion.py:307-345 | conversion fails exactly without a reference point (TypeError) or when `coefficients_tlm` cannot read some multipole the loops visit (IndexError); otherwise both PWEs carry the given grids, the SWE's k, the given reference point and their kinds, the upgoing one valid from the SWE's height up and the downgoing one from below up to it |
| FieldExpansion.WellFormedIsReadable | smuthi/field_expansion.py:335-340 | on a well-formed SWE every coefficient the loops read exists, so the conversion raises no IndexError |
| FieldExpansion.ShortVectorReadFails | smuthi/field_expansion.py:88-90 | an SWE with l_max 1, m_max 0 and a single coefficient cannot read (tau 1, l 1, m 0): IndexError |
| FieldExpansion.SweToPweShortVector | smuthi/field_expansion.py:335-340 | converting that SWE raises IndexError at `coefficients_tlm` |
| FieldExpansion.SweToPweSplitsInterval | smuthi/field_expansion.py:307-315 | when the SWE's height lies in the given range, the two validity ranges cover that range and meet only at the SWE's height |
| Common.IntersectWithin | smuthi/field_expansion.py:119-120 | for overlapping ranges, (max of minima, min of maxima) holds z exactly when both ranges do |
| Common.IntersectCommutes | smuthi/field_expansion.py:119-120 | the intersection of validity ranges is symmetric |
| Common.IntersectOfDisjointCoversGap | smuthi/field_expansion.py:119-120 | for any two ranges that overlap at most in a point, the intersected pair is (max of minima, min of maxima) reversed: read with min and max it holds z exactly when z lies in the gap between them, and a z in both ranges is that single point |
| Particles.Sizes | smuthi/linear_system.py:102 | the block sizes list has one entry per particle, each the particle's blocksize |
| SystemLayout.Shape | smuthi/linear_system.py:100-103 | the system matrix is square, of side the sum of the block sizes, and every block fits in it |
| SystemLayout.IndexBlock | smuthi/linear_system.py:105-114 | block i starts after the earlier blocks and has particle i's blocksize; past the end it is the empty range at the total |
| SystemLayout.IndexBlocksTile | smuthi/linear_system.py:105-114 | the blocks tile 0 .. shape end to end |
| SystemLayout.Index | smuthi/linear_system.py:116-129 | index fails with IndexError exactly past the particle list; a valid multipole lands inside its particle's block |
| SystemLayout.Position | smuthi/linear_system.py:127-129 | the sum of the earlier block sizes plus the multipole's single index lands inside particle i's index block whenever the multipole is valid for that particle |
| SystemLayout.PositionInjective | smuthi/linear_system.py:116-129 | distinct (particle, multipole) pairs get distinct system positions |
| SystemLayout.PositionSurjective | smuthi/linear_system.py:116-129 | every system position belongs to some particle's valid multipole |
| SystemLayout.AtPosition | smuthi/linear_system.py:116-129 | ParticleAt and MultipoleAt invert index |
| SystemLayout.Locate | smuthi/linear_system.py:105-114 | every position below the total lies in exactly one block |
| SystemLayout.BlocksPartition | smuthi/linear_system.py:105-114 | the block containing a position exists and is unique |
| SystemLayout.Stack | smuthi/linear_system.py:245-247 | writing each block into its index_block gives a vector whose segment i is block i |
| SystemLayout.SegmentsDetermine | smuthi/linear_system.py:105-114 | two system vectors that agree on every block are equal |
| CouplingLookup.MaxLMax | smuthi/linear_system.py:167 | the global l_max bounds every particle's l_max and is attained |
| CouplingLookup.MaxMMax | smuthi/linear_system.py:168 | the global m_max bounds every particle's m_max and is attained |
| CouplingLookup.MaxCutoffsCover | smuthi/linear_system.py:167-169 | every particle's multipoles are valid under the global cutoffs |
| CouplingLookup.AddEntry | smuthi/linear_system.py:177-182 | one innermost iteration appends the system index and the particle number to the multipole's bucket and records m |
| CouplingLookup.AddDegree | smuthi/linear_system.py:176-182 | the loop over tau files both polarisations of (l, m) |
| CouplingLookup.AddOrder | smuthi/linear_system.py:175-182 | the loop over l files every degree of order m |
| CouplingLookup.AddParticle | smuthi/linear_system.py:174-182 | the loop over m files every multipole of particle i |
| CouplingLookup.EmptyFilled | smuthi/linear_system.py:171-173 | n_max empty buckets with no order recorded are the bucket lists before the loop |
| CouplingLookup.FillBuckets | smuthi/linear_system.py:171-185 | after the loop every bucket lists, in particle order, the system indices and particle numbers of the holders of its multipole |
| CouplingLookup.BuildLookup | smuthi/linear_system.py:167-185 | the built table is the lookup of the particles under the maximum cutoffs |
| CouplingLookup.BucketOfTable | smuthi/linear_system.py:171-185 | bucket n holds the holders of multipole n, their system indices, and its order |
| CouplingLookup.LookupContains | smuthi/linear_system.py:178-182 | every coefficient of every particle is filed in the bucket of its multipole, with the right order |
| CouplingLookup.LookupUnique | smuthi/linear_system.py:178-182 | a system index appears only in its own multipole's bucket, beside its own particle number |
| CouplingLookup.LookupCoversEveryPosition | smuthi/linear_system.py:171-185 | every system position appears in some bucket |
| CouplingLookup.LookupOrderSet | smuthi/linear_system.py:173-182 | m_list[n] is set exactly for non-empty buckets, to the order of multipole n |
| CouplingLookup.BucketEntriesDistinct | smuthi/linear_system.py:171-185 | no bucket lists a system index twice |
| CouplingLookup.LookupShape | smuthi/linear_system.py:171-185 | bucket lists have equal lengths, their indices are in range, and their entries are distinct |
| CouplingMatrixOperator.PairProduct | smuthi/linear_system.py:214-217 | M.dot(in_vec[idx2]) for a bucket pair is, per row, the kernel-weighted sum over bucket n2 |
| CouplingMatrixOperator.ScatterAdd | smuthi/linear_system.py:217 | `out_vec[idx1] += v` adds v at the listed distinct indices and leaves the rest unchanged |
| CouplingMatrixOperator.AddPair | smuthi/linear_system.py:210-217 | one inner iteration adds bucket n2's contribution to every position of bucket n1 |
| CouplingMatrixOperator.AddRow | smuthi/linear_system.py:206-217 | the loop over n2 accumulates the row sums of bucket n1, or reports the empty bucket numpy rejects |
| CouplingMatrixOperator.LookupApply | smuthi/linear_system.py:204-218 | the on-the-fly matvec fails with IndexError exactly when a bucket is empty; otherwise every position holds its row sum |
| CouplingMatrixOperator.NextBucket | smuthi/linear_system.py:206-217 | finished rows stay finished when the next bucket starts |
| CouplingMatrixOperator.LookupResultIsProduct | smuthi/linear_system.py:204-218 | the result of the loop is the function LookupProduct: position r holds its row sum over all buckets |
| CouplingMatrixOperator.LookupProduct | smuthi/linear_system.py:204-218 | the on-the-fly W x keeps the length of x; LookupResultIsProduct and LookupApply state its entries |
| CouplingMatrixOperator.LookupProductZero | smuthi/linear_system.py:204-218 | the on-the-fly W is linear at zero: it maps zeros to zeros |
| CouplingMatrixOperator.DenseCouplingEntry | smuthi/linear_system.py:189-199 | entry (index_block(s1)[j], index_block(s2)[k]) of W is the layer-mediated plus the direct coupling coefficient |
| CouplingMatrixOperator.DenseCouplingShape | smuthi/linear_system.py:191 | the dense W is square of the system's side |
| CouplingMatrixOperator.DenseCoupling | smuthi/linear_system.py:189-199 | the dense W has one row per system position, and the rows of particle s1 are its coupling rows over every particle s2 |
| CouplingMatrixOperator.WriteBlockAt | smuthi/linear_system.py:196 | `coup_mat[idx1, idx2] = block` replaces exactly that rectangle |
| CouplingMatrixOperator.RowSplice | smuthi/linear_system.py:194-199 | writing block (s1, s2) extends the finished columns of a row by one block |
| CouplingMatrixOperator.AssemblePair | smuthi/linear_system.py:195-199 | one inner iteration writes block (s1, s2) and touches no other rows |
| CouplingMatrixOperator.AssembleRowBlock | smuthi/linear_system.py:192-199 | the inner loop completes the rows of particle s1 and touches no other rows |
| CouplingMatrixOperator.RowsComplete | smuthi/linear_system.py:192-199 | a row finished over every column block is the row of the dense W |
| CouplingMatrixOperator.AssembleDense | smuthi/linear_system.py:189-199 | the double loop over particle pairs builds exactly the dense W |
| CouplingMatrixOperator.BucketOfPosition | smuthi/linear_system.py:171-185 | every position lies in a bucket, beside its particle's number |
| CouplingMatrixOperator.CouplingMatrix.Product | smuthi/linear_system.py:202-220 | W x fails exactly without n_max (AttributeError) or on an empty bucket (IndexError), and keeps the length |
| CouplingMatrixOperator.CouplingMatrix.Apply | smuthi/linear_system.py:202-220 | the operator's matvec computes Product: the stored W times x, or the lookup product |
| CouplingMatrixOperator.CouplingMatrix.ProductZero | smuthi/linear_system.py:202-220 | W maps the zero vector to zero whenever it applies |
| CouplingMatrixOperator.NewCouplingMatrix | smuthi/linear_system.py:147-220 | the constructor fails exactly for a lookup over no particles (IndexError), over several planes, or together with a stored matrix (NotImplementedError); otherwise it stores the dense W, the lookup with its kernel, or an operator without n_max |
| CouplingMatrixOperator.AllAtZ | smuthi/linear_system.py:155-156 | `z_list.count(z_list[0]) == len(z_list)` holds exactly when every particle is at that height |
| TMatrixOperator.BlockDiagApply | smuthi/linear_system.py:231-235 | T v has, on every particle's block, the particle's T-matrix times that block of v |
| TMatrixOperator.BlockDiagApplyIsMatVec | smuthi/linear_system.py:231-237 | T v is the block-diagonal matrix diag(T^i) times v |
| TMatrixOperator.BlockDiagApplyAdd | smuthi/linear_system.py:231-235 | T is additive |
| TMatrixOperator.BlockDiagApplyZero | smuthi/linear_system.py:231-235 | T maps zero to zero |
| TMatrixOperator.BlockDiagApplyAt | smuthi/linear_system.py:234 | each entry of T v is a row of T^i dotted with the block of v |
| TMatrixOperator.TMatMat | smuthi/linear_system.py:236-237 | matmat applies each T^i to its block of rows |
| TMatrixOperator.TMatMatColumns | smuthi/linear_system.py:236-237 | every column of T A is T applied to that column of A |
| TMatrixOperator.TMatMatApply | smuthi/linear_system.py:236-237 | (T A) x == T (A x) |
| TMatrixOperator.ProductSlice | smuthi/linear_system.py:245-247 | block i of the right-hand side is T^i a^i |
| TMatrixOperator.ApplyBlocks | smuthi/linear_system.py:231-235 | the loop in apply_t_matrix computes T v |
| TMatrixOperator.MatMatBlocks | smuthi/linear_system.py:231-237 | apply_t_matrix on a matrix computes T A |
| TMatrixOperator.ProductBlocks | smuthi/linear_system.py:245-248 | the loop in right_hand_side computes T a |
| TMatrixOperator.ProductBlock | smuthi/linear_system.py:246-247 | one iteration makes the output agree with T a up to the end of block i |
| TMatrixOperator.WriteSegment | smuthi/linear_system.py:234 | `tv[index_block(i)] = block` extends the finished prefix by block i |
| TMatrixOperator.WriteBlock | smuthi/linear_system.py:234 | a slice assignment replaces exactly that slice |
| TMatrixOperator.TMatrix.Apply | smuthi/linear_system.py:231-237 | the operator's matvec is T v |
| TMatrixOperator.TMatrix.MatMat | smuthi/linear_system.py:236-237 | the operator's matmat is T A |
| TMatrixOperator.TMatrix.RightHandSide | smuthi/linear_system.py:239-248 | right_hand_side is T a, with a the stacked initial-field coefficients |
| MasterMatrixOperator.DenseMasterApply | smuthi/linear_system.py:260-263 | the stored M = 1 - T W applied to x is x - T (W x) |
| MasterMatrixOperator.DenseMaster | smuthi/linear_system.py:261-262 | `np.eye(n) - T.matmat(W)` is an n x n matrix over the system's side; DenseMasterApply states what it computes |
| MasterMatrixOperator.NewMasterMatrix | smuthi/linear_system.py:258-268 | the master matrix stores 1 - T W when W is stored and is applied on the fly otherwise; no LU factors yet |
| MasterMatrixOperator.MasterMatrix.Product | smuthi/linear_system.py:258-268 | M x fails exactly when W x does, and keeps the length |
| MasterMatrixOperator.MasterMatrix.Apply | smuthi/linear_system.py:258-268 | both representations compute x - T (W x), or W's exception |
| MasterMatrixOperator.MasterMatrix.ProductZero | smuthi/linear_system.py:258-268 | M maps zero to zero whenever it applies |
| MasterMatrixOperator.MasterMatrix.SolutionSelfConsistent | smuthi/linear_system.py:252-268 | a solution of M b = T a satisfies b = T (a + W b) |
| MasterMatrixOperator.MasterMatrix.Uncoupled | smuthi/linear_system.py:258-263 | with a stored all-zero W the master matrix is the identity |
| MasterMatrixOperator.ScatteringEquation | smuthi/linear_system.py:252-268 | b - T w = T a implies b = T (a + w) |
| MasterMatrixOperator.ZeroCouplingIsIdentity | smuthi/linear_system.py:261-262 | x - T (0 x) == x |
| LinearSystemSolve.FirstUnknown | smuthi/linear_system.py:87-89 | the first keyword that names no parameter, or none exactly when every keyword is a parameter |
| LinearSystemSolve.BindKeywords | smuthi/field_expansion.py:76 | a keyword call binds exactly when every keyword names a parameter and every required parameter is given; otherwise TypeError |
| LinearSystemSolve.ScatteredFieldCallAsWrittenFails | smuthi/linear_system.py:87-89 | the call with `kind=`, `lower_z=`, `upper_z=` raises TypeError at `kind` |
| LinearSystemSolve.ScatteredFieldCallBinds | smuthi/linear_system.py:87-89 | the call with the signature's names `type=` and `valid_between=` binds |
| LinearSystemSolve.ScatteredField | smuthi/linear_system.py:83-90 | the stored field is well-formed exactly when the particle's cutoffs are valid and its block has blocksize entries |
| LinearSystemSolve.ScatteredFieldIsConstructed | smuthi/linear_system.py:83-90 | the stored field is what the constructor builds from the layer's wavenumber and z-limits, carrying the particle's block |
| LinearSystemSolve.StoredFieldsWellFormed | smuthi/linear_system.py:87-90 | every stored field is well-formed under its particle's cutoffs and holds that particle's block of b |
| LinearSystemSolve.SliceIsSegment | smuthi/linear_system.py:90 | on a vector of the system's length, `b[index_block(i)]` lies inside b and is particle i's block |
| LinearSystemSolve.StoreField | smuthi/linear_system.py:87-90 | one iteration stores entry i's field and keeps the fields of the earlier entries that are other objects |
| LinearSystemSolve.StoreFields | smuthi/linear_system.py:82-90 | after the loop every particle holds its block of b as an outgoing expansion; a particle listed twice keeps its last entry's block |
| LinearSystemSolve.BlockEquation | smuthi/linear_system.py:239-248 | block i of T (a + w) is T^i (a^i + w^i) |
| LinearSystemSolve.LinearSystem.RightHandSide | smuthi/linear_system.py:239-248 | the right-hand side T a has one entry per system position |
| LinearSystemSolve.LinearSystem.RightHandSideBlocks | smuthi/linear_system.py:245-247 | block i of the right-hand side is particle i's T-matrix applied to its initial-field coefficients |
| LinearSystemSolve.LinearSystem.SolveFails | smuthi/linear_system.py:69-80 | the configurations `solve` refuses: LU without a stored master matrix, GMRES over a W that raises, or an unknown solver type; Solve states that exactly these raise |
| LinearSystemSolve.LinearSystem.Solution | smuthi/linear_system.py:69-78 | the solution b, from the cached or fresh LU factors or from GMRES, has one entry per system position, so every `index_block` lies inside it |
| LinearSystemSolve.LinearSystem.ComputeSolution | smuthi/linear_system.py:69-80 | the solver branch raises exactly the refused configurations; LU factors are computed once and cached; otherwise it returns the LU or GMRES solution |
| LinearSystemSolve.LinearSystem.Solve | smuthi/linear_system.py:64-92 | solve raises ValueError for LU without a stored matrix or an unknown solver, and W's error under GMRES; on error or with no particles nothing changes; otherwise the LU cache is filled once and every particle holds its block of b |
| LinearSystemSolve.LinearSystem.SolveParticles | smuthi/linear_system.py:69-90 | for a non-empty particle list: exactly the refused configurations raise, and then nothing changes; otherwise the LU cache is filled once and every particle holds its block of b |
| LinearSystemSolve.LinearSystem.ScatteredCoefficientsConsistent | smuthi/linear_system.py:64-92 | each particle's stored block b^i equals T^i (a^i + (W b)^i): its own initial field plus what the others scatter to it |
| LinearSystemSolve.LinearSystem.LuSolutionSolves | smuthi/linear_system.py:69-75 | an exact LU solve of the stored master matrix solves M b = T a |

## Left out

- `smuthi/utility/automatic_parameter_selection.py` is not part of this model: it sets up
  and runs whole simulations.
- Field evaluation is left out: `electric_field`, the grids `k_parallel_grid`,
  `azimuthal_angle_grid`, `k_z` and `k_z_grid`, `plane_vector_wave_function` and the
  special functions. They are floating-point numerics on complex values. Only the
  ValueError that `k_z_grid` raises for an undefined type is kept, in PweToSwe.
- FieldExpansion.PweToSwe: the coefficients of the conversions (the integrals and
  transformation coefficients) are parameters `an` and `g`. The model keeps the
  validity intervals, the metadata, where each coefficient is stored, and the
  errors listed in its row.
- FieldExpansion.PweToSwe: a coefficient array whose shape differs from the grids'
  always gives ValueError in the model. numpy at lines 289 and 295 instead broadcasts
  shapes that differ only on length-1 axes, e.g. (2, 1, 1) against 2 x 2 grids, and
  then converts, or, once the loops run, raises IndexError for a first axis of
  length 1. Expansions built by the constructor or by `__add__` have the grids'
  shape and are not affected.
- FieldExpansion.SweToPwe: the PWE coefficients are the parameter `g`, for the same
  reason.
- Complex numbers are modelled as `real`. Only additions, products and placements of
  coefficients matter to the properties proved.
- The layer system and the coupling providers are function-typed parameters. These
  are `layer_mediated_coupling_block`, `direct_coupling_block` and
  `radial_coupling_lookup` together with the distance and azimuth arrays. The lookup
  entry `lookup[n1][n2](rho) * exp(1j (m2 - m1) phi)` becomes an abstract kernel of
  (n1, n2, p1, p2).
- `scipy.linalg.lu_factor`, `lu_solve` and `scipy.sparse.linalg.gmres` are
  function-typed parameters. Nothing is claimed about their accuracy beyond
  LuSolutionSolves, which assumes an exact solve.
- LinearSystemSolve.LinearSystem.Solve: GMRES's `info` flag is ignored, as in the
  source. Errors raised by W inside GMRES are modelled through W's first application.
- The `LinearSystem` constructor (smuthi/linear_system.py:27-62) is reduced to a
  constructor taking its parts. It computes the initial-field expansions and the
  T-matrices through code outside this model. Its `CouplingMatrix` and
  `MasterMatrix` steps are modelled as NewCouplingMatrix and NewMasterMatrix.
- Console output (`sys.stdout.write`, `flush`) is left out.
- TMatrixOperator.TMatrix.RightHandSide requires every initial field to have its
  block's length. With a mismatch, numpy raises a broadcasting error, which is not
  modelled.
- CouplingMatrixOperator.CouplingMatrix.Product: a stored dense W is square of the
  system's side by construction. Shape errors from numpy are not modelled.
- The lookup's conversion of bucket lists to numpy arrays
  (smuthi/linear_system.py:183-185) keeps their contents, so buckets stay sequences.
- FieldExpansion.PweAdd: the grids are compared as whole sequences. numpy's
  elementwise `==` inside `all(...)` also accepts a one-element grid against a grid of
  equal values, and an empty grid against a one-element one. There the source goes on
  and broadcasts the coefficient arrays. The model raises ValueError instead. Which
  error numpy raises for grids of other unequal lengths depends on its version, and
  is modelled as ValueError.
- FieldExpansion.PweAdd: the coefficient arrays are added only when they have the
  same shape. numpy's `+` (smuthi/field_expansion.py:223) also broadcasts arrays whose
  shapes differ only on axes of length 1. An example is a (2, 1, 2) array plus a
  (2, 1, 1) one, where the single entry per row is added to both entries. The model
  raises ValueError on such operands. Well-formed expansions, whose arrays have the
  shape of their own grids, are not affected.
- FieldExpansion.PweAddCommutes: symmetry holds for the modelled comparison only. On
  the broadcasting inputs above, the source keeps the left operand's grids, so its sum
  is not symmetric there.
- FieldExpansion.SweAdd: the sum is rebuilt through the corrected constructor (the
  first finding below). An m_max of 0 is kept, where the source's constructor would
  store l_max.
- LinearSystemSolve.LinearSystem.Solve: `lu_solve` and `gmres` are parameters whose
  types promise a vector of the right-hand side's length, as scipy's do. The
  IndexError that `b[index_block(i)]` (smuthi/linear_system.py:90) would raise on a
  shorter vector is therefore not modelled.
- LinearSystemSolve.LinearSystem.Solve: the stored fields are built with the
  corrected `m_max` test of the first finding below, so a particle with m_max 0 keeps
  it. The source's constructor would store l_max there, even with the intended
  keywords.

## Findings

| source | as written | input that shows it | evidently intended | confidence | as-written member | corrected member |
|---|---|---|---|---|---|---|
| smuthi/field_expansion.py:79-82 | `if m_max:` treats m_max = 0 like a missing value and stores l_max | `SphericalWaveExpansion(k=1, l_max=2, m_max=0)` stores m_max = 2, so a 4-entry block sized for m_max = 0 is then read by `coefficients_tlm` at the offsets for m_max = 2 | `if m_max is not None:` | high, not executed | FieldExpansion.MMaxZeroMisreadAsWritten | FieldExpansion.MMaxZeroKept |
| smuthi/field_expansion.py:118-122 | the sum's validity is decided by the left operand alone | a + b with a.valid_between = None and b.valid_between = (0, 1) gives None; b + a raises TypeError from `min(None)` | a missing range counts as unbounded, and the sum intersects both ranges symmetrically | medium, not executed | FieldExpansion.SweAddAsWrittenAsymmetric | FieldExpansion.SweAddCommutes |
| smuthi/linear_system.py:87-89 | `solve` passes `kind=`, `lower_z=`, `upper_z=`, which `SphericalWaveExpansion.__init__` does not accept | any non-empty particle list raises TypeError at the first particle, after the system is solved | `type='outgoing', valid_between=(loz, upz)`; the corrected member also keeps an m_max of 0, as the first row intends | high, not executed | LinearSystemSolve.ScatteredFieldCallAsWrittenFails | LinearSystemSolve.ScatteredFieldIsConstructed |
