/** `CouplingMatrix` (smuthi/linear_system.py): the particle coupling W, either stored
    as a dense matrix assembled block by block, or applied on the fly bucket by bucket
    from the radial lookup. The coupling coefficients themselves come from providers
    outside this model and are parameters here. */
module CouplingMatrixOperator {
  import opened Common
  import opened MultipoleIndex
  import opened LinAlg
  import opened Particles
  import opened SystemLayout
  import opened CouplingLookup

  // ---------------------------------------------------------------------------
  // On-the-fly application from the lookup

  /** kernel(n1, n2, p1, p2) stands for `lookup[n1][n2](rho) * exp(1j * (m2 - m1) * phi)`
      at the distance rho and azimuth phi between particles p1 and p2. */
  type Kernel = (nat, nat, nat, nat) -> real

  /** Sum over the first k entries of bucket n2 of kernel(n1, n2, p1, p2) x[idx2]:
      what the bucket pair (n1, n2) adds to a position of particle p1 in bucket n1. */
  function BucketSum(tab: LookupTable, kernel: Kernel, x: Vector, n1: nat, p1: nat, n2: nat, k: nat): real
    requires TableShape(tab, |x|) && n2 < tab.nMax && k <= |tab.systemVectorIndexList[n2]|
  {
    if k == 0 then 0.0
    else BucketSum(tab, kernel, x, n1, p1, n2, k - 1)
         + kernel(n1, n2, p1, tab.particleNumberList[n2][k - 1]) * x[tab.systemVectorIndexList[n2][k - 1]]
  }

  /** Sum of BucketSum over the buckets n2 < m. */
  function RowSum(tab: LookupTable, kernel: Kernel, x: Vector, n1: nat, p1: nat, m: nat): real
    requires TableShape(tab, |x|) && m <= tab.nMax
  {
    if m == 0 then 0.0
    else RowSum(tab, kernel, x, n1, p1, m - 1) + BucketSum(tab, kernel, x, n1, p1, m - 1, |tab.systemVectorIndexList[m - 1]|)
  }

  /** Some bucket has no entry; numpy then indexes with an empty float array. */
  predicate SomeBucketEmpty(tab: LookupTable)
    requires |tab.systemVectorIndexList| == tab.nMax
  {
    exists n :: 0 <= n < tab.nMax && |tab.systemVectorIndexList[n]| == 0
  }

  /** The coupling matrix of bucket pair (n1, n2) times the gathered input:
      row a is sum_b kernel(n1, n2, i1[a], i2[b]) x[idx2[b]]. */
  lemma PairProduct(tab: LookupTable, kernel: Kernel, x: Vector, n1: nat, n2: nat, mat: Matrix, xs: Vector)
    requires TableShape(tab, |x|) && n1 < tab.nMax && n2 < tab.nMax
    requires var i1, i2 := tab.particleNumberList[n1], tab.particleNumberList[n2];
      && IsMatrix(mat, |i1|, |i2|)
      && (forall a, b :: 0 <= a < |i1| && 0 <= b < |i2| ==> mat[a][b] == kernel(n1, n2, i1[a], i2[b]))
      && |xs| == |i2| && forall b :: 0 <= b < |i2| ==> xs[b] == x[tab.systemVectorIndexList[n2][b]]
    ensures forall a :: 0 <= a < |mat| ==>
      MatVec(mat, xs)[a] == BucketSum(tab, kernel, x, n1, tab.particleNumberList[n1][a], n2, |xs|)
  {
    forall a | 0 <= a < |mat|
      ensures MatVec(mat, xs)[a] == BucketSum(tab, kernel, x, n1, tab.particleNumberList[n1][a], n2, |xs|)
    {
      DotToIsBucketSum(tab, kernel, x, n1, n2, tab.particleNumberList[n1][a], mat[a], xs, |xs|);
    }
  }

  lemma {:induction false} DotToIsBucketSum(tab: LookupTable, kernel: Kernel, x: Vector, n1: nat, n2: nat, p1: nat,
                                            row: Vector, xs: Vector, k: nat)
    requires TableShape(tab, |x|) && n2 < tab.nMax
    requires |row| == |xs| == |tab.particleNumberList[n2]| && k <= |xs|
    requires forall b :: 0 <= b < |row| ==> row[b] == kernel(n1, n2, p1, tab.particleNumberList[n2][b])
    requires forall b :: 0 <= b < |xs| ==> xs[b] == x[tab.systemVectorIndexList[n2][b]]
    ensures DotTo(row, xs, k) == BucketSum(tab, kernel, x, n1, p1, n2, k)
  {
    if k > 0 {
      DotToIsBucketSum(tab, kernel, x, n1, n2, p1, row, xs, k - 1);
      DotToStep(row, xs, k);
    }
  }

  /** `out_vec[idx] += vals` for distinct positions idx. */
  method ScatterAdd(out: array<real>, idx: seq<int>, vals: Vector)
    requires |idx| == |vals| && forall a :: 0 <= a < |idx| ==> 0 <= idx[a] < out.Length
    requires forall a, a' :: 0 <= a < a' < |idx| ==> idx[a] != idx[a']
    modifies out
    ensures forall a :: 0 <= a < |idx| ==> out[idx[a]] == old(out[idx[a]]) + vals[a]
    ensures forall c :: 0 <= c < out.Length && c !in idx ==> out[c] == old(out[c])
  {
    for a := 0 to |idx|
      invariant forall a' :: 0 <= a' < |idx| ==> out[idx[a']] == old(out[idx[a']]) + (if a' < a then vals[a'] else 0.0)
      invariant forall c :: 0 <= c < out.Length && c !in idx ==> out[c] == old(out[c])
    {
      out[idx[a]] := out[idx[a]] + vals[a];
    }
  }

  /** Entries of bucket n1 hold their sums over the buckets before n2; entries of the
      buckets before n1 are complete; all other entries are still zero. */
  predicate Accumulated(out: array<real>, tab: LookupTable, kernel: Kernel, x: Vector, n1: nat, n2: nat)
    requires TableShape(tab, |x|) && out.Length == |x| && n1 < tab.nMax && n2 <= tab.nMax
    reads out
  {
    forall n, k :: 0 <= n < tab.nMax && 0 <= k < |tab.systemVectorIndexList[n]| ==>
      out[tab.systemVectorIndexList[n][k]]
        == if n < n1 then RowSum(tab, kernel, x, n, tab.particleNumberList[n][k], tab.nMax)
           else if n == n1 then RowSum(tab, kernel, x, n, tab.particleNumberList[n][k], n2)
           else 0.0
  }

  /** One pass of the inner loop: `out_vec[idx1] += M.dot(in_vec[idx2])` for buckets
      n1 and n2, neither of them empty. */
  method AddPair(out: array<real>, tab: LookupTable, kernel: Kernel, x: Vector, n1: nat, n2: nat)
    requires TableShape(tab, |x|) && out.Length == |x| && n1 < tab.nMax && n2 < tab.nMax
    requires Accumulated(out, tab, kernel, x, n1, n2)
    modifies out
    ensures Accumulated(out, tab, kernel, x, n1, n2 + 1)
  {
    var i1, idx1 := tab.particleNumberList[n1], tab.systemVectorIndexList[n1];
    var i2, idx2 := tab.particleNumberList[n2], tab.systemVectorIndexList[n2];
    var mat := seq(|i1|, a requires 0 <= a < |i1| => seq(|i2|, b requires 0 <= b < |i2| => kernel(n1, n2, i1[a], i2[b])));
    var xs := seq(|idx2|, b requires 0 <= b < |idx2| => x[idx2[b]]);
    var prod := MatVec(mat, xs);
    PairProduct(tab, kernel, x, n1, n2, mat, xs);
    ScatterAdd(out, idx1, prod);
  }

  /** The inner loop `for n2 in range(self.n_max)` for bucket n1; false when it meets an
      empty bucket. */
  method AddRow(out: array<real>, tab: LookupTable, kernel: Kernel, x: Vector, n1: nat) returns (ok: bool)
    requires TableShape(tab, |x|) && out.Length == |x| && n1 < tab.nMax
    requires Accumulated(out, tab, kernel, x, n1, 0)
    modifies out
    ensures ok <==> |tab.systemVectorIndexList[n1]| > 0 && !SomeBucketEmpty(tab)
    ensures ok ==> Accumulated(out, tab, kernel, x, n1, tab.nMax)
  {
    for n2 := 0 to tab.nMax
      invariant forall n :: 0 <= n < n2 ==> |tab.systemVectorIndexList[n]| > 0
      invariant n2 > 0 ==> |tab.systemVectorIndexList[n1]| > 0
      invariant Accumulated(out, tab, kernel, x, n1, n2)
    {
      if |tab.particleNumberList[n1]| == 0 || |tab.particleNumberList[n2]| == 0 {
        return false;
      }
      AddPair(out, tab, kernel, x, n1, n2);
    }
    return true;
  }

  /** y is W x on the lookup path: at the position held by entry k of bucket n, the sum
      over every bucket pair (n, n2) and every entry of bucket n2 of the kernel times the
      input there. */
  predicate LookupResult(tab: LookupTable, kernel: Kernel, x: Vector, y: Vector)
    requires TableShape(tab, |x|)
  {
    && |y| == |x|
    && forall n, k :: 0 <= n < tab.nMax && 0 <= k < |tab.systemVectorIndexList[n]| ==>
         y[tab.systemVectorIndexList[n][k]] == RowSum(tab, kernel, x, n, tab.particleNumberList[n][k], tab.nMax)
  }

  /** `evaluate_coupling_matrix`: W x from the lookup, bucket pair by bucket pair. An
      empty bucket makes numpy index with an empty float array: IndexError. */
  method LookupApply(tab: LookupTable, kernel: Kernel, x: Vector) returns (r: Result<Vector>)
    requires TableShape(tab, |x|)
    ensures r.Err? <==> SomeBucketEmpty(tab)
    ensures r.Err? ==> r.error == IndexError
    ensures r.Ok? ==> LookupResult(tab, kernel, x, r.value)
  {
    var out := new real[|x|](_ => 0.0);
    for n1 := 0 to tab.nMax
      invariant n1 > 0 ==> !SomeBucketEmpty(tab)
      invariant n1 < tab.nMax ==> Accumulated(out, tab, kernel, x, n1, 0)
      invariant n1 == tab.nMax ==> forall n, k :: 0 <= n < tab.nMax && 0 <= k < |tab.systemVectorIndexList[n]| ==>
        out[tab.systemVectorIndexList[n][k]] == RowSum(tab, kernel, x, n, tab.particleNumberList[n][k], tab.nMax)
    {
      var ok := AddRow(out, tab, kernel, x, n1);
      if !ok {
        return Err(IndexError);
      }
      NextBucket(out, tab, kernel, x, n1);
    }
    return Ok(out[..]);
  }

  /** After the inner loop bucket n1 is complete. */
  lemma NextBucket(out: array<real>, tab: LookupTable, kernel: Kernel, x: Vector, n1: nat)
    requires TableShape(tab, |x|) && out.Length == |x| && n1 < tab.nMax
    requires Accumulated(out, tab, kernel, x, n1, tab.nMax)
    ensures n1 + 1 < tab.nMax ==> Accumulated(out, tab, kernel, x, n1 + 1, 0)
    ensures n1 + 1 == tab.nMax ==> forall n, k :: 0 <= n < tab.nMax && 0 <= k < |tab.systemVectorIndexList[n]| ==>
      out[tab.systemVectorIndexList[n][k]] == RowSum(tab, kernel, x, n, tab.particleNumberList[n][k], tab.nMax)
  {
  }

  /** Every bucket sum of the zero vector is zero. */
  lemma {:induction false} BucketSumZero(tab: LookupTable, kernel: Kernel, n1: nat, p1: nat, n2: nat, k: nat, size: nat)
    requires TableShape(tab, size) && n2 < tab.nMax && k <= |tab.systemVectorIndexList[n2]|
    ensures BucketSum(tab, kernel, Zeros(size), n1, p1, n2, k) == 0.0
  {
    if k > 0 {
      BucketSumZero(tab, kernel, n1, p1, n2, k - 1, size);
    }
  }

  /** W 0 == 0 on the lookup path: every row sum of the zero vector is zero. */
  lemma {:induction false} RowSumZero(tab: LookupTable, kernel: Kernel, n1: nat, p1: nat, m: nat, size: nat)
    requires TableShape(tab, size) && m <= tab.nMax
    ensures RowSum(tab, kernel, Zeros(size), n1, p1, m) == 0.0
  {
    if m > 0 {
      RowSumZero(tab, kernel, n1, p1, m - 1, size);
      BucketSumZero(tab, kernel, n1, p1, m - 1, |tab.systemVectorIndexList[m - 1]|, size);
    }
  }

  // ---------------------------------------------------------------------------
  // The stored matrix, assembled block by block

  /** A provider of coupling blocks: block(s1, s2) couples particle s2 into particle s1. */
  type BlockProvider = (nat, nat) -> Matrix

  /** Every provided block has sizes[s1] rows of sizes[s2] entries. */
  predicate BlocksFit(sizes: seq<nat>, layer: BlockProvider, direct: BlockProvider)
  {
    forall s1, s2 :: 0 <= s1 < |sizes| && 0 <= s2 < |sizes| ==>
      IsMatrix(layer(s1, s2), sizes[s1], sizes[s2]) && IsMatrix(direct(s1, s2), sizes[s1], sizes[s2])
  }

  /** `layer_mediated_coupling_block(...) + direct_coupling_block(...)` for (s1, s2). */
  function PairBlock(sizes: seq<nat>, layer: BlockProvider, direct: BlockProvider, s1: nat, s2: nat): (b: Matrix)
    requires BlocksFit(sizes, layer, direct) && s1 < |sizes| && s2 < |sizes|
    ensures IsMatrix(b, sizes[s1], sizes[s2])
  {
    MatAdd(layer(s1, s2), direct(s1, s2))
  }

  /** Row j of particle s1's rows of W: row j of every block (s1, s2), side by side. */
  function CouplingRow(sizes: seq<nat>, layer: BlockProvider, direct: BlockProvider, s1: nat, j: nat): (row: Vector)
    requires BlocksFit(sizes, layer, direct) && s1 < |sizes| && j < sizes[s1]
    ensures |row| == Total(sizes)
    ensures forall s2 :: 0 <= s2 < |sizes| ==> Segment(sizes, row, s2) == PairBlock(sizes, layer, direct, s1, s2)[j]
  {
    Stack(sizes, seq(|sizes|, s2 requires 0 <= s2 < |sizes| => PairBlock(sizes, layer, direct, s1, s2)[j]))
  }

  function CouplingRows(sizes: seq<nat>, layer: BlockProvider, direct: BlockProvider, s1: nat): (rows: Matrix)
    requires BlocksFit(sizes, layer, direct) && s1 < |sizes|
    ensures |rows| == sizes[s1] && forall j :: 0 <= j < sizes[s1] ==> rows[j] == CouplingRow(sizes, layer, direct, s1, j)
  {
    seq(sizes[s1], j requires 0 <= j < sizes[s1] => CouplingRow(sizes, layer, direct, s1, j))
  }

  /** The dense coupling matrix W: the rows of every particle, stacked. */
  function DenseCoupling(sizes: seq<nat>, layer: BlockProvider, direct: BlockProvider): (w: Matrix)
    requires BlocksFit(sizes, layer, direct)
    ensures |w| == Total(sizes)
    ensures forall s1 :: 0 <= s1 < |sizes| ==> Segment(sizes, w, s1) == CouplingRows(sizes, layer, direct, s1)
  {
    Stack(sizes, seq(|sizes|, s1 requires 0 <= s1 < |sizes| => CouplingRows(sizes, layer, direct, s1)))
  }

  /** Entry (j, k) of block (s1, s2) of W is the sum of the two provided blocks there,
      for every ordered pair of particles. */
  lemma DenseCouplingEntry(sizes: seq<nat>, layer: BlockProvider, direct: BlockProvider, s1: nat, j: nat, s2: nat, k: nat)
    requires BlocksFit(sizes, layer, direct) && s1 < |sizes| && s2 < |sizes| && j < sizes[s1] && k < sizes[s2]
    ensures Start(sizes, s1) + j < Total(sizes) && Start(sizes, s2) + k < Total(sizes)
    ensures |DenseCoupling(sizes, layer, direct)[Start(sizes, s1) + j]| == Total(sizes)
    ensures DenseCoupling(sizes, layer, direct)[Start(sizes, s1) + j][Start(sizes, s2) + k]
         == layer(s1, s2)[j][k] + direct(s1, s2)[j][k]
  {
    var w := DenseCoupling(sizes, layer, direct);
    BlockWithinTotal(sizes, s1);
    BlockWithinTotal(sizes, s2);
    assert w[Start(sizes, s1) + j] == Segment(sizes, w, s1)[j];
    var row := CouplingRow(sizes, layer, direct, s1, j);
    assert row[Start(sizes, s2) + k] == Segment(sizes, row, s2)[k];
  }

  /** W is square of side Total(sizes). */
  lemma DenseCouplingShape(sizes: seq<nat>, layer: BlockProvider, direct: BlockProvider)
    requires BlocksFit(sizes, layer, direct)
    ensures IsMatrix(DenseCoupling(sizes, layer, direct), Total(sizes), Total(sizes))
  {
    var w := DenseCoupling(sizes, layer, direct);
    forall r | 0 <= r < Total(sizes) ensures |w[r]| == Total(sizes) {
      var s1 := Locate(sizes, r);
      assert w[r] == Segment(sizes, w, s1)[r - Start(sizes, s1)];
    }
  }

  /** `coup_mat[idx1, idx2] = block` on the rows r0 .. r0 + |block| - 1, columns
      c0 .. c0 + cols - 1. */
  method WriteBlockAt(out: array<Vector>, r0: nat, c0: nat, block: Matrix, cols: nat)
    requires IsMatrix(block, |block|, cols) && r0 + |block| <= out.Length
    requires forall r :: r0 <= r < r0 + |block| ==> c0 + cols <= |out[r]|
    modifies out
    ensures forall r :: 0 <= r < out.Length ==>
      out[r] == if r0 <= r < r0 + |block| then old(out[r])[..c0] + block[r - r0] + old(out[r])[c0 + cols..] else old(out[r])
  {
    for j := 0 to |block|
      invariant forall r :: 0 <= r < out.Length ==>
        out[r] == if r0 <= r < r0 + j then old(out[r])[..c0] + block[r - r0] + old(out[r])[c0 + cols..] else old(out[r])
    {
      out[r0 + j] := out[r0 + j][..c0] + block[j] + out[r0 + j][c0 + cols..];
    }
  }

  /** Row j of particle s1 agrees with its final value before segment s2 and is zero
      from there on. */
  predicate RowAgrees(sizes: seq<nat>, layer: BlockProvider, direct: BlockProvider, s1: nat, j: nat, s2: nat, row: Vector)
    requires BlocksFit(sizes, layer, direct) && s1 < |sizes| && j < sizes[s1] && s2 <= |sizes|
  {
    var target := CouplingRow(sizes, layer, direct, s1, j);
    |row| == Total(sizes) && forall c :: 0 <= c < Total(sizes) ==> row[c] == if c < Start(sizes, s2) then target[c] else 0.0
  }

  /** Splicing row j of block (s1, s2) into segment s2 of such a row extends the
      agreement over segment s2. */
  lemma RowSplice(sizes: seq<nat>, layer: BlockProvider, direct: BlockProvider, s1: nat, j: nat, s2: nat, old_: Vector)
    requires BlocksFit(sizes, layer, direct) && s1 < |sizes| && j < sizes[s1] && s2 < |sizes|
    requires RowAgrees(sizes, layer, direct, s1, j, s2, old_)
    ensures Start(sizes, s2) + sizes[s2] <= |old_|
    ensures RowAgrees(sizes, layer, direct, s1, j, s2 + 1,
      old_[..Start(sizes, s2)] + PairBlock(sizes, layer, direct, s1, s2)[j] + old_[Start(sizes, s2) + sizes[s2]..])
  {
    BlockWithinTotal(sizes, s2);
    var target := CouplingRow(sizes, layer, direct, s1, j);
    assert Segment(sizes, target, s2) == PairBlock(sizes, layer, direct, s1, s2)[j];
  }

  /** The rows of particle s1 agree with their final values before segment s2. */
  predicate RowsUpTo(out: array<Vector>, sizes: seq<nat>, layer: BlockProvider, direct: BlockProvider, s1: nat, s2: nat)
    requires BlocksFit(sizes, layer, direct) && s1 < |sizes| && s2 <= |sizes| && Start(sizes, s1 + 1) <= out.Length
    reads out
  {
    forall r :: Start(sizes, s1) <= r < Start(sizes, s1 + 1) ==>
      RowAgrees(sizes, layer, direct, s1, r - Start(sizes, s1), s2, out[r])
  }

  /** One pass of the inner assembly loop: block (s1, s2) into its place. */
  method AssemblePair(out: array<Vector>, sizes: seq<nat>, layer: BlockProvider, direct: BlockProvider, s1: nat, s2: nat)
    requires BlocksFit(sizes, layer, direct) && s1 < |sizes| && s2 < |sizes| && out.Length == Total(sizes)
    requires Start(sizes, s1 + 1) <= out.Length && RowsUpTo(out, sizes, layer, direct, s1, s2)
    modifies out
    ensures RowsUpTo(out, sizes, layer, direct, s1, s2 + 1)
    ensures forall r :: 0 <= r < out.Length && !(Start(sizes, s1) <= r < Start(sizes, s1 + 1)) ==> out[r] == old(out[r])
  {
    var block := PairBlock(sizes, layer, direct, s1, s2);
    BlockWithinTotal(sizes, s2);
    assert Start(sizes, s1 + 1) == Start(sizes, s1) + |block|;
    WriteBlockAt(out, Start(sizes, s1), Start(sizes, s2), block, sizes[s2]);
    forall r | Start(sizes, s1) <= r < Start(sizes, s1 + 1)
      ensures RowAgrees(sizes, layer, direct, s1, r - Start(sizes, s1), s2 + 1, out[r])
    {
      RowSplice(sizes, layer, direct, s1, r - Start(sizes, s1), s2, old(out[r]));
    }
  }

  /** The inner loop `for s2, particle2 in enumerate(particle_list)` for particle s1. */
  method AssembleRowBlock(out: array<Vector>, sizes: seq<nat>, layer: BlockProvider, direct: BlockProvider, s1: nat)
    requires BlocksFit(sizes, layer, direct) && s1 < |sizes| && out.Length == Total(sizes)
    requires Start(sizes, s1 + 1) <= out.Length
    requires forall r :: Start(sizes, s1) <= r < Start(sizes, s1 + 1) ==> out[r] == Zeros(Total(sizes))
    modifies out
    ensures RowsUpTo(out, sizes, layer, direct, s1, |sizes|)
    ensures forall r :: 0 <= r < out.Length && !(Start(sizes, s1) <= r < Start(sizes, s1 + 1)) ==> out[r] == old(out[r])
  {
    for s2 := 0 to |sizes|
      invariant RowsUpTo(out, sizes, layer, direct, s1, s2)
      invariant forall r :: 0 <= r < out.Length && !(Start(sizes, s1) <= r < Start(sizes, s1 + 1)) ==> out[r] == old(out[r])
    {
      AssemblePair(out, sizes, layer, direct, s1, s2);
    }
  }

  /** Rows that agree with their final values everywhere are the rows of W. */
  lemma RowsComplete(out: seq<Vector>, sizes: seq<nat>, layer: BlockProvider, direct: BlockProvider, s1: nat, r: nat)
    requires BlocksFit(sizes, layer, direct) && s1 < |sizes| && |out| == Total(sizes)
    requires Start(sizes, s1) <= r < Start(sizes, s1 + 1) <= |out|
    requires RowAgrees(sizes, layer, direct, s1, r - Start(sizes, s1), |sizes|, out[r])
    ensures out[r] == DenseCoupling(sizes, layer, direct)[r]
  {
    var d := DenseCoupling(sizes, layer, direct);
    assert d[r] == Segment(sizes, d, s1)[r - Start(sizes, s1)];
    assert out[r] == CouplingRow(sizes, layer, direct, s1, r - Start(sizes, s1));
  }

  /** The dense assembly of `CouplingMatrix.__init__`: `coup_mat` starts at zero and
      receives block (s1, s2) for every ordered pair of particles. */
  method AssembleDense(sizes: seq<nat>, layer: BlockProvider, direct: BlockProvider) returns (w: Matrix)
    requires BlocksFit(sizes, layer, direct)
    ensures w == DenseCoupling(sizes, layer, direct)
  {
    ghost var d := DenseCoupling(sizes, layer, direct);
    var n := Total(sizes);
    var out := new Vector[n](_ => Zeros(n));
    for s1 := 0 to |sizes|
      invariant Start(sizes, s1) <= n
      invariant forall r :: 0 <= r < Start(sizes, s1) ==> out[r] == d[r]
      invariant forall r :: Start(sizes, s1) <= r < n ==> out[r] == Zeros(n)
    {
      BlockWithinTotal(sizes, s1);
      AssembleRowBlock(out, sizes, layer, direct, s1);
      forall r | Start(sizes, s1) <= r < Start(sizes, s1 + 1) ensures out[r] == d[r] {
        assert RowAgrees(sizes, layer, direct, s1, r - Start(sizes, s1), |sizes|, out[r]);
        RowsComplete(out[..], sizes, layer, direct, s1, r);
      }
    }
    w := out[..];
    assert |w| == |d| && forall r :: 0 <= r < |w| ==> w[r] == d[r];
  }

  /** The lookup bucket of the multipole at system position r. */
  function BucketOfPosition(tab: LookupTable, ps: seq<Particle>, r: nat): (n: nat)
    requires |ps| > 0 && ValidParticles(ps) && IsLookupOf(tab, ps) && r < Total(Sizes(ps))
    ensures n < tab.nMax
    ensures exists k ::
              && 0 <= k < |tab.systemVectorIndexList[n]| && k < |tab.particleNumberList[n]|
              && tab.systemVectorIndexList[n][k] == r && tab.particleNumberList[n][k] == ParticleAt(ps, r)
  {
    var t := MultipoleAt(ps, r);
    LookupContains(tab, ps, ParticleAt(ps, r), t);
    MultiToSingleIndex(t.tau, t.l, t.m, tab.lMax, tab.mMax) as nat
  }

  /** W x on the lookup path, position by position: the row sum of the bucket that holds
      position r, taken for the particle at r. */
  function LookupProduct(tab: LookupTable, ps: seq<Particle>, kernel: Kernel, x: Vector): (y: Vector)
    requires |ps| > 0 && ValidParticles(ps) && IsLookupOf(tab, ps) && |x| == Total(Sizes(ps))
    ensures |y| == |x|
  {
    LookupShape(tab, ps);
    seq(|x|, r requires 0 <= r < |x| =>
      RowSum(tab, kernel, x, BucketOfPosition(tab, ps, r), ParticleAt(ps, r), tab.nMax))
  }

  /** For a table built from the particles, the bucket-pair accumulation computes exactly
      the position-wise product: the buckets cover every position once. */
  lemma LookupResultIsProduct(tab: LookupTable, ps: seq<Particle>, kernel: Kernel, x: Vector, y: Vector)
    requires |ps| > 0 && ValidParticles(ps) && IsLookupOf(tab, ps) && |x| == Total(Sizes(ps))
    requires TableShape(tab, |x|) && LookupResult(tab, kernel, x, y)
    ensures y == LookupProduct(tab, ps, kernel, x)
  {
    var z := LookupProduct(tab, ps, kernel, x);
    forall r | 0 <= r < |x| ensures y[r] == z[r] {
      var n := BucketOfPosition(tab, ps, r);
      var k :| 0 <= k < |tab.systemVectorIndexList[n]| && k < |tab.particleNumberList[n]|
        && tab.systemVectorIndexList[n][k] == r && tab.particleNumberList[n][k] == ParticleAt(ps, r);
      assert y[tab.systemVectorIndexList[n][k]] == RowSum(tab, kernel, x, n, tab.particleNumberList[n][k], tab.nMax);
    }
  }

  /** W 0 == 0 on the lookup path. */
  lemma LookupProductZero(tab: LookupTable, ps: seq<Particle>, kernel: Kernel)
    requires |ps| > 0 && ValidParticles(ps) && IsLookupOf(tab, ps)
    ensures LookupProduct(tab, ps, kernel, Zeros(Total(Sizes(ps)))) == Zeros(Total(Sizes(ps)))
  {
    var n := Total(Sizes(ps));
    LookupShape(tab, ps);
    forall r | 0 <= r < n ensures LookupProduct(tab, ps, kernel, Zeros(n))[r] == 0.0 {
      RowSumZero(tab, kernel, BucketOfPosition(tab, ps, r), ParticleAt(ps, r), tab.nMax, n);
    }
  }

  // ---------------------------------------------------------------------------
  // The operator object

  /** How W is applied: the stored dense matrix, the lookup with its kernel, or neither
      (`store_matrix=False` without a lookup: `n_max` is then never set). */
  datatype CouplingOperator =
    | Stored(a: Matrix)
    | OnTheFly(tab: LookupTable, kernel: Kernel)
    | MissingNMax

  class CouplingMatrix {
    const particles: seq<Particle>
    const op: CouplingOperator

    constructor (particles: seq<Particle>, op: CouplingOperator)
      ensures this.particles == particles && this.op == op
    {
      this.particles := particles;
      this.op := op;
    }

    /** A stored matrix is square of the system's side; a lookup was built from the particles. */
    predicate Valid()
    {
      && ValidParticles(particles)
      && match op
         case Stored(a) => IsMatrix(a, Total(Sizes(particles)), Total(Sizes(particles)))
         case OnTheFly(tab, _) =>
           |particles| > 0 && IsLookupOf(tab, particles) && TableShape(tab, Total(Sizes(particles)))
         case MissingNMax => true
    }

    /** W x, or the exception the operator's `matvec` raises: an empty lookup bucket is
        an IndexError, a missing `n_max` an AttributeError. */
    function Product(x: Vector): (r: Result<Vector>)
      requires Valid() && |x| == Total(Sizes(particles))
      ensures r.Err? <==> op.MissingNMax? || (op.OnTheFly? && SomeBucketEmpty(op.tab))
      ensures r.Err? && op.OnTheFly? ==> r.error == IndexError
      ensures r.Err? && op.MissingNMax? ==> r.error == AttributeError
      ensures r.Ok? ==> |r.value| == |x|
    {
      match op
      case Stored(a) => Ok(MatVec(a, x))
      case OnTheFly(tab, kernel) =>
        if SomeBucketEmpty(tab) then Err(IndexError) else Ok(LookupProduct(tab, particles, kernel, x))
      case MissingNMax => Err(AttributeError)
    }

    /** The operator's `matvec`. */
    method Apply(x: Vector) returns (r: Result<Vector>)
      requires Valid() && |x| == Total(Sizes(particles))
      ensures r == Product(x)
    {
      match op {
        case Stored(a) =>
          r := Ok(MatVec(a, x));
        case OnTheFly(tab, kernel) =>
          r := LookupApply(tab, kernel, x);
          if r.Ok? {
            LookupResultIsProduct(tab, particles, kernel, x, r.value);
          }
        case MissingNMax =>
          r := Err(AttributeError);
      }
    }

    /** W 0 == 0 whenever W can be applied. */
    lemma ProductZero()
      requires Valid()
      ensures Product(Zeros(Total(Sizes(particles)))).Ok? ==>
        Product(Zeros(Total(Sizes(particles)))).value == Zeros(Total(Sizes(particles)))
    {
      var n := Total(Sizes(particles));
      match op {
        case Stored(a) =>
          MatVecZero(a, n);
        case OnTheFly(tab, kernel) =>
          LookupProductZero(tab, particles, kernel);
        case MissingNMax =>
      }
    }
  }

  /** `CouplingMatrix.__init__`. The lookup needs the particles in one plane z = const
      (and reads `z_list[0]`); a lookup together with a stored matrix is not implemented. */
  method NewCouplingMatrix(ps: seq<Particle>, storeMatrix: bool, lookupResolution: Option<real>,
                           layer: BlockProvider, direct: BlockProvider, kernel: Kernel)
    returns (r: Result<CouplingMatrix>)
    requires ValidParticles(ps) && BlocksFit(Sizes(ps), layer, direct)
    ensures r.Err? <==> lookupResolution.Some? && (|ps| == 0 || !Coplanar(ps) || storeMatrix)
    ensures lookupResolution.Some? && |ps| == 0 ==> r.Err? && r.error == IndexError
    ensures lookupResolution.Some? && |ps| > 0 && (!Coplanar(ps) || storeMatrix) ==> r.Err? && r.error == NotImplementedError
    ensures r.Ok? ==> r.value.particles == ps && r.value.Valid()
    ensures r.Ok? && storeMatrix ==> r.value.op == Stored(DenseCoupling(Sizes(ps), layer, direct))
    ensures r.Ok? && !storeMatrix && lookupResolution.None? ==> r.value.op == MissingNMax
    ensures r.Ok? && !storeMatrix && lookupResolution.Some? ==>
      r.value.op.OnTheFly? && IsLookupOf(r.value.op.tab, ps) && r.value.op.kernel == kernel
  {
    var tab: Option<LookupTable> := None;
    if lookupResolution.Some? {
      if |ps| == 0 {
        return Err(IndexError);
      }
      var coplanar := AllAtZ(ps, ps[0].position.z);
      if !coplanar {
        return Err(NotImplementedError);
      }
      var t := BuildLookup(ps);
      LookupShape(t, ps);
      tab := Some(t);
    }
    var cm: CouplingMatrix;
    if storeMatrix {
      if tab.Some? {
        return Err(NotImplementedError);
      }
      var w := AssembleDense(Sizes(ps), layer, direct);
      DenseCouplingShape(Sizes(ps), layer, direct);
      cm := new CouplingMatrix(ps, Stored(w));
    } else if tab.Some? {
      cm := new CouplingMatrix(ps, OnTheFly(tab.value, kernel));
    } else {
      cm := new CouplingMatrix(ps, MissingNMax);
    }
    return Ok(cm);
  }

  /** `z_list.count(z) == len(z_list)`. */
  method AllAtZ(ps: seq<Particle>, z: real) returns (b: bool)
    ensures b <==> forall i :: 0 <= i < |ps| ==> ps[i].position.z == z
  {
    b := true;
    for i := 0 to |ps|
      invariant b <==> forall j :: 0 <= j < i ==> ps[j].position.z == z
    {
      if ps[i].position.z != z {
        b := false;
      }
    }
  }
}
