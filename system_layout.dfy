/** `SystemMatrix`: the system vector holds the particles' coefficient blocks one after
    another, in particle-list order (smuthi/linear_system.py). */
module SystemLayout {
  import opened Common
  import opened MultipoleIndex
  import opened LinAlg
  import opened Particles

  /** Sum of the first i block sizes: where block i starts. */
  function Start(sizes: seq<nat>, i: nat): nat
    requires i <= |sizes|
  {
    if i == 0 then 0 else Start(sizes, i - 1) + sizes[i - 1]
  }

  /** Length of the system vector. */
  function Total(sizes: seq<nat>): nat
  {
    Start(sizes, |sizes|)
  }

  lemma {:induction false} StartMonotone(sizes: seq<nat>, i: nat, j: nat)
    requires i <= j <= |sizes|
    ensures Start(sizes, i) <= Start(sizes, j)
    decreases j
  {
    if i < j {
      StartMonotone(sizes, i, j - 1);
    }
  }

  /** Blocks appear in list order: every position of block i precedes every
      position of a later block. */
  lemma BlocksOrdered(sizes: seq<nat>, i: nat, j: nat)
    requires i < j < |sizes|
    ensures Start(sizes, i + 1) <= Start(sizes, j)
  {
    StartMonotone(sizes, i + 1, j);
  }

  /** The block that holds position r, searched among the first k blocks. */
  function LocateIn(sizes: seq<nat>, r: nat, k: nat): (i: nat)
    requires k <= |sizes| && r < Start(sizes, k)
    ensures i < k && Start(sizes, i) <= r < Start(sizes, i + 1)
    decreases k
  {
    if Start(sizes, k - 1) <= r then k - 1 else LocateIn(sizes, r, k - 1)
  }

  /** The particle whose block holds system position r. */
  function Locate(sizes: seq<nat>, r: nat): (i: nat)
    requires r < Total(sizes)
    ensures i < |sizes| && Start(sizes, i) <= r < Start(sizes, i + 1)
  {
    LocateIn(sizes, r, |sizes|)
  }

  /** No position belongs to two blocks. */
  lemma BlocksDisjoint(sizes: seq<nat>, i: nat, i': nat, r: nat)
    requires i < |sizes| && i' < |sizes|
    requires Start(sizes, i) <= r < Start(sizes, i + 1)
    requires Start(sizes, i') <= r < Start(sizes, i' + 1)
    ensures i == i'
  {
    if i < i' {
      BlocksOrdered(sizes, i, i');
    } else if i' < i {
      BlocksOrdered(sizes, i', i);
    }
  }

  /** The blocks partition [0, Total): every position lies in exactly one of them. */
  lemma BlocksPartition(sizes: seq<nat>, r: nat)
    requires r < Total(sizes)
    ensures exists i :: 0 <= i < |sizes| && Start(sizes, i) <= r < Start(sizes, i + 1)
    ensures forall i :: 0 <= i < |sizes| && Start(sizes, i) <= r < Start(sizes, i + 1) ==> i == Locate(sizes, r)
  {
    var l := Locate(sizes, r);
    forall i | 0 <= i < |sizes| && Start(sizes, i) <= r < Start(sizes, i + 1) ensures i == l {
      BlocksDisjoint(sizes, i, l, r);
    }
  }

  /** Locating a position of block i gives back i. */
  lemma LocateInBlock(sizes: seq<nat>, i: nat, j: nat)
    requires i < |sizes| && j < sizes[i]
    ensures Start(sizes, i) + j < Total(sizes)
    ensures Locate(sizes, Start(sizes, i) + j) == i
  {
    StartMonotone(sizes, i + 1, |sizes|);
    BlocksDisjoint(sizes, i, Locate(sizes, Start(sizes, i) + j), Start(sizes, i) + j);
  }

  /** The last block ends where the system vector ends. */
  lemma BlockWithinTotal(sizes: seq<nat>, i: nat)
    requires i < |sizes|
    ensures Start(sizes, i) + sizes[i] <= Total(sizes)
  {
    StartMonotone(sizes, i + 1, |sizes|);
  }

  // ---------------------------------------------------------------------------
  // The SystemMatrix methods, over a particle list

  /** `SystemMatrix.shape`: square, of side the sum of all block sizes. */
  function Shape(ps: seq<Particle>): (shape: (nat, nat))
    requires ValidParticles(ps)
    ensures shape.0 == shape.1 == Total(Sizes(ps))
    ensures forall i :: 0 <= i < |ps| ==> BlockSize(ps[i].lMax, ps[i].mMax) <= shape.0
  {
    var sizes := Sizes(ps);
    forall i | 0 <= i < |ps| ensures sizes[i] <= Total(sizes) {
      BlockWithinTotal(sizes, i);
    }
    (Total(sizes), Total(sizes))
  }

  /** `SystemMatrix.index_block(i)` as the (start, stop) of a Python range. For an
      index past the end, the slices cover the whole list and the range is empty. */
  function IndexBlock(ps: seq<Particle>, i: nat): (range: (nat, nat))
    requires ValidParticles(ps)
    ensures i < |ps| ==> range.0 == Start(Sizes(ps), i) && range.1 - range.0 == BlockSize(ps[i].lMax, ps[i].mMax)
    ensures i >= |ps| ==> range.0 == range.1 == Total(Sizes(ps))
    ensures range.0 <= range.1 <= Total(Sizes(ps))
  {
    var sizes := Sizes(ps);
    if i < |ps| then
      BlockWithinTotal(sizes, i);
      (Start(sizes, i), Start(sizes, i + 1))
    else
      (Total(sizes), Total(sizes))
  }

  /** The index blocks partition the system vector: consecutive blocks touch, and
      the first starts at 0 and the last ends at the shape. */
  lemma IndexBlocksTile(ps: seq<Particle>, i: nat)
    requires ValidParticles(ps) && i < |ps|
    ensures i == 0 ==> IndexBlock(ps, i).0 == 0
    ensures i + 1 < |ps| ==> IndexBlock(ps, i).1 == IndexBlock(ps, i + 1).0
    ensures i + 1 == |ps| ==> IndexBlock(ps, i).1 == Shape(ps).0
  {
  }

  /** The position of coefficient t of particle i in the system vector: inside
      particle i's index block whenever t is within the particle's cutoffs. */
  function Position(ps: seq<Particle>, i: nat, t: Multipole): (p: int)
    requires ValidParticles(ps) && i < |ps|
    ensures Valid(t, ps[i].lMax, ps[i].mMax) ==> IndexBlock(ps, i).0 <= p < IndexBlock(ps, i).1
  {
    var p := Start(Sizes(ps), i) + Flat(t, ps[i].lMax, ps[i].mMax);
    if Valid(t, ps[i].lMax, ps[i].mMax) then
      FlatInRange(t, ps[i].lMax, ps[i].mMax);
      p
    else
      p
  }

  /** `SystemMatrix.index(i, tau, l, m)`; `particle_list[i]` raises IndexError past the
      end of the list. */
  function Index(ps: seq<Particle>, i: nat, tau: int, l: int, m: int): (r: Result<int>)
    requires ValidParticles(ps)
    ensures r.Err? <==> i >= |ps|
    ensures r.Err? ==> r.error == IndexError
    ensures r.Ok? && Valid(Multipole(tau, l, m), ps[i].lMax, ps[i].mMax) ==>
      IndexBlock(ps, i).0 <= r.value < IndexBlock(ps, i).1
  {
    if i >= |ps| then Err(IndexError)
    else Ok(Position(ps, i, Multipole(tau, l, m)))
  }

  /** Valid (particle, multipole) pairs sit at distinct system positions. */
  lemma PositionInjective(ps: seq<Particle>, i: nat, t: Multipole, i': nat, t': Multipole)
    requires ValidParticles(ps) && i < |ps| && i' < |ps|
    requires Valid(t, ps[i].lMax, ps[i].mMax) && Valid(t', ps[i'].lMax, ps[i'].mMax)
    requires Position(ps, i, t) == Position(ps, i', t')
    ensures i == i' && t == t'
  {
    var sizes := Sizes(ps);
    FlatInRange(t, ps[i].lMax, ps[i].mMax);
    FlatInRange(t', ps[i'].lMax, ps[i'].mMax);
    BlocksDisjoint(sizes, i, i', Position(ps, i, t));
    FlatInjective(t, t', ps[i].lMax, ps[i].mMax);
  }

  /** Every system position belongs to exactly one valid (particle, multipole) pair:
      the one found by locating its block and inverting `multi_to_single_index`. */
  lemma PositionSurjective(ps: seq<Particle>, r: nat)
    requires ValidParticles(ps) && r < Total(Sizes(ps))
    ensures var i := Locate(Sizes(ps), r);
      var t := SingleToMulti(r - Start(Sizes(ps), i), ps[i].lMax, ps[i].mMax);
      Valid(t, ps[i].lMax, ps[i].mMax) && Position(ps, i, t) == r
  {
    var sizes := Sizes(ps);
    var i := Locate(sizes, r);
    FlatSurjective(r - Start(sizes, i), ps[i].lMax, ps[i].mMax);
  }

  /** The particle and multipole at system position r. */
  function ParticleAt(ps: seq<Particle>, r: nat): (i: nat)
    requires ValidParticles(ps) && r < Total(Sizes(ps))
    ensures i < |ps|
  {
    Locate(Sizes(ps), r)
  }

  function MultipoleAt(ps: seq<Particle>, r: nat): (t: Multipole)
    requires ValidParticles(ps) && r < Total(Sizes(ps))
    ensures Valid(t, ps[ParticleAt(ps, r)].lMax, ps[ParticleAt(ps, r)].mMax)
    ensures Position(ps, ParticleAt(ps, r), t) == r
  {
    var i := ParticleAt(ps, r);
    PositionSurjective(ps, r);
    SingleToMulti(r - Start(Sizes(ps), i), ps[i].lMax, ps[i].mMax)
  }

  /** Reading a valid pair back from its position gives the pair. */
  lemma AtPosition(ps: seq<Particle>, i: nat, t: Multipole)
    requires ValidParticles(ps) && i < |ps| && Valid(t, ps[i].lMax, ps[i].mMax)
    ensures 0 <= Position(ps, i, t) < Total(Sizes(ps))
    ensures ParticleAt(ps, Position(ps, i, t)) == i && MultipoleAt(ps, Position(ps, i, t)) == t
  {
    var sizes := Sizes(ps);
    FlatInRange(t, ps[i].lMax, ps[i].mMax);
    LocateInBlock(sizes, i, Flat(t, ps[i].lMax, ps[i].mMax));
    var r := Position(ps, i, t);
    PositionInjective(ps, i, t, ParticleAt(ps, r), MultipoleAt(ps, r));
  }

  // ---------------------------------------------------------------------------
  // Segments of system vectors

  /** `vector[index_block(i)]`. */
  function Segment<T>(sizes: seq<nat>, v: seq<T>, i: nat): (s: seq<T>)
    requires |v| == Total(sizes) && i < |sizes|
    ensures Start(sizes, i) + sizes[i] <= |v|
    ensures |s| == sizes[i] && forall j :: 0 <= j < sizes[i] ==> s[j] == v[Start(sizes, i) + j]
  {
    BlockWithinTotal(sizes, i);
    v[Start(sizes, i)..Start(sizes, i + 1)]
  }

  /** Block offsets depend only on the sizes before them. */
  lemma {:induction false} StartPrefix(sizes: seq<nat>, n: nat, k: nat)
    requires k <= n <= |sizes|
    ensures Start(sizes[..n], k) == Start(sizes, k)
    decreases k
  {
    if k > 0 {
      StartPrefix(sizes, n, k - 1);
    }
  }

  /** Appending block n to a vector holding blocks 0..n-1 gives a vector holding
      blocks 0..n. */
  lemma StackStep<T>(sizes: seq<nat>, blocks: seq<seq<T>>, prefix: seq<T>)
    requires |sizes| > 0 && |blocks| == |sizes|
    requires forall i {:trigger blocks[i]} :: 0 <= i < |sizes| ==> |blocks[i]| == sizes[i]
    requires |prefix| == Total(sizes[..|sizes| - 1])
    requires forall i :: 0 <= i < |sizes| - 1 ==> Segment(sizes[..|sizes| - 1], prefix, i) == blocks[i]
    ensures |prefix + blocks[|sizes| - 1]| == Total(sizes)
    ensures forall i :: 0 <= i < |sizes| ==> Segment(sizes, prefix + blocks[|sizes| - 1], i) == blocks[i]
  {
    var n := |sizes| - 1;
    var v := prefix + blocks[n];
    StartPrefix(sizes, n, n);
    forall i | 0 <= i < |sizes| ensures Segment(sizes, v, i) == blocks[i] {
      if i < n {
        StartPrefix(sizes, n, i);
        StartPrefix(sizes, n, i + 1);
        assert Segment(sizes, v, i) == Segment(sizes[..n], prefix, i);
      }
    }
  }

  /** Per-particle blocks laid end to end into one system vector. */
  function Stack<T>(sizes: seq<nat>, blocks: seq<seq<T>>): (v: seq<T>)
    requires |blocks| == |sizes| && forall i {:trigger blocks[i]} :: 0 <= i < |sizes| ==> |blocks[i]| == sizes[i]
    ensures |v| == Total(sizes)
    ensures forall i :: 0 <= i < |sizes| ==> Segment(sizes, v, i) == blocks[i]
    decreases |sizes|
  {
    if |sizes| == 0 then []
    else
      var n := |sizes| - 1;
      var prefix := Stack(sizes[..n], blocks[..n]);
      StackStep(sizes, blocks, prefix);
      prefix + blocks[n]
  }

  lemma SegmentAdd(sizes: seq<nat>, u: Vector, v: Vector, i: nat)
    requires |u| == |v| == Total(sizes) && i < |sizes|
    ensures Segment(sizes, Add(u, v), i) == Add(Segment(sizes, u, i), Segment(sizes, v, i))
  {
  }

  lemma SegmentZeros(sizes: seq<nat>, i: nat)
    requires i < |sizes|
    ensures Segment(sizes, Zeros(Total(sizes)), i) == Zeros(sizes[i])
  {
  }

  /** The segment of a product a x is the rows of the block times x. */
  lemma SegmentMatVec(sizes: seq<nat>, a: Matrix, x: Vector, i: nat)
    requires IsMatrix(a, Total(sizes), |x|) && i < |sizes|
    ensures Segment(sizes, MatVec(a, x), i) == MatVec(Segment(sizes, a, i), x)
  {
  }

  /** The segment of a column is the column of the block's rows. */
  lemma SegmentColumn(sizes: seq<nat>, a: Matrix, cols: nat, c: nat, i: nat)
    requires IsMatrix(a, Total(sizes), cols) && c < cols && i < |sizes|
    ensures Segment(sizes, Column(a, cols, c), i) == Column(Segment(sizes, a, i), cols, c)
  {
  }

  /** Two system vectors agree iff they agree on every segment. */
  lemma SegmentsDetermine<T>(sizes: seq<nat>, v: seq<T>, w: seq<T>)
    requires |v| == |w| == Total(sizes)
    requires forall i :: 0 <= i < |sizes| ==> Segment(sizes, v, i) == Segment(sizes, w, i)
    ensures v == w
  {
    forall r | 0 <= r < |v| ensures v[r] == w[r] {
      var i := Locate(sizes, r);
      assert Segment(sizes, v, i)[r - Start(sizes, i)] == Segment(sizes, w, i)[r - Start(sizes, i)];
    }
  }
}
