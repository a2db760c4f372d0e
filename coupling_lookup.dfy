/** The radial-lookup bookkeeping of `CouplingMatrix` (smuthi/linear_system.py): every
    coefficient of every particle is put into the bucket of its multipole under the
    global cutoffs, so that the coupling of all particles can be applied bucket by
    bucket. */
module CouplingLookup {
  import opened Common
  import opened MultipoleIndex
  import opened Particles
  import opened SystemLayout

  /** `max([particle.l_max for particle in particle_list])`. */
  function MaxLMax(ps: seq<Particle>): (l: nat)
    requires |ps| > 0
    ensures forall i :: 0 <= i < |ps| ==> ps[i].lMax <= l
    ensures exists i :: 0 <= i < |ps| && ps[i].lMax == l
    decreases |ps|
  {
    var last := ps[|ps| - 1].lMax;
    if |ps| == 1 then last
    else
      var rest := MaxLMax(ps[..|ps| - 1]);
      assert forall i :: 0 <= i < |ps| - 1 ==> ps[..|ps| - 1][i] == ps[i];
      if rest < last then last else rest
  }

  /** `max([particle.m_max for particle in particle_list])`. */
  function MaxMMax(ps: seq<Particle>): (m: nat)
    requires |ps| > 0
    ensures forall i :: 0 <= i < |ps| ==> ps[i].mMax <= m
    ensures exists i :: 0 <= i < |ps| && ps[i].mMax == m
    decreases |ps|
  {
    var last := ps[|ps| - 1].mMax;
    if |ps| == 1 then last
    else
      var rest := MaxMMax(ps[..|ps| - 1]);
      assert forall i :: 0 <= i < |ps| - 1 ==> ps[..|ps| - 1][i] == ps[i];
      if rest < last then last else rest
  }

  /** Global cutoffs (lMax, mMax) bound every particle's cutoffs. */
  predicate Covers(ps: seq<Particle>, lMax: nat, mMax: nat)
  {
    ValidCutoffs(lMax, mMax) && forall i :: 0 <= i < |ps| ==> ps[i].lMax <= lMax && ps[i].mMax <= mMax
  }

  /** The maxima of the particles' cutoffs are valid global cutoffs that bound them all. */
  lemma MaxCutoffsCover(ps: seq<Particle>)
    requires |ps| > 0 && ValidParticles(ps)
    ensures Covers(ps, MaxLMax(ps), MaxMMax(ps))
  {
    var i :| 0 <= i < |ps| && ps[i].mMax == MaxMMax(ps);
    assert ValidCutoffs(ps[i].lMax, ps[i].mMax);
  }

  /** A coefficient of a particle is a coefficient under the global cutoffs. */
  lemma ValidUnderCover(ps: seq<Particle>, lMax: nat, mMax: nat, i: nat, t: Multipole)
    requires Covers(ps, lMax, mMax) && i < |ps| && Valid(t, ps[i].lMax, ps[i].mMax)
    ensures Valid(t, lMax, mMax)
  {
  }

  /** The particles among the first k that have coefficient t, in list order
      (`particle_number_list[n]` for the bucket n of t). */
  function Holders(ps: seq<Particle>, t: Multipole, k: nat): (h: seq<nat>)
    requires k <= |ps|
    ensures forall j :: 0 <= j < |h| ==> h[j] < k && Valid(t, ps[h[j]].lMax, ps[h[j]].mMax)
  {
    if k == 0 then []
    else Holders(ps, t, k - 1) + (if Valid(t, ps[k - 1].lMax, ps[k - 1].mMax) then [k - 1] else [])
  }

  /** The system positions of coefficient t of those particles
      (`system_vector_index_list[n]` for the bucket n of t). */
  function SysIndices(ps: seq<Particle>, t: Multipole, k: nat): (idx: seq<int>)
    requires ValidParticles(ps) && k <= |ps|
    ensures |idx| == |Holders(ps, t, k)|
    ensures forall j :: 0 <= j < |idx| ==> idx[j] == Position(ps, Holders(ps, t, k)[j], t)
  {
    if k == 0 then []
    else SysIndices(ps, t, k - 1) + (if Valid(t, ps[k - 1].lMax, ps[k - 1].mMax) then [Position(ps, k - 1, t)] else [])
  }

  /** `m_list[n]`: the order of the bucket's multipole once some particle has written it. */
  function OrderOf(ps: seq<Particle>, t: Multipole, k: nat): Option<int>
    requires k <= |ps|
  {
    if |Holders(ps, t, k)| > 0 then Some(t.m) else None
  }

  /** The loops visit (m, l, tau) in this order: order m outermost, then degree l,
      then polarization tau. Multipole t was visited before the cursor c. */
  predicate Visited(t: Multipole, c: Multipole)
  {
    || t.m < c.m
    || (t.m == c.m && t.l < c.l)
    || (t.m == c.m && t.l == c.l && t.tau < c.tau)
  }

  /** A cursor before every coefficient of every particle. */
  function Fresh(lMax: nat): Multipole
  {
    Multipole(0, 0, -(lMax as int) - 1)
  }

  /** The bucket of multipole t after particles [0, i) and, of particle i, the
      coefficients before cursor c. */
  predicate BucketAt(ps: seq<Particle>, t: Multipole, i: nat, c: Multipole, idx: seq<int>, owners: seq<nat>, m: Option<int>)
    requires ValidParticles(ps) && i <= |ps|
  {
    var extra := i < |ps| && Valid(t, ps[i].lMax, ps[i].mMax) && Visited(t, c);
    && idx == SysIndices(ps, t, i) + (if extra then [Position(ps, i, t)] else [])
    && owners == Holders(ps, t, i) + (if extra then [i] else [])
    && m == (if extra then Some(t.m) else OrderOf(ps, t, i))
  }

  /** The three lists hold, for every bucket n, the bucket of the multipole at n under
      the global cutoffs, as far as the loops have got. */
  predicate Filled(ps: seq<Particle>, lMax: nat, mMax: nat, i: nat, c: Multipole,
                   svi: seq<seq<int>>, pn: seq<seq<nat>>, ml: seq<Option<int>>)
    requires ValidParticles(ps) && ValidCutoffs(lMax, mMax) && i <= |ps|
  {
    && |svi| == |pn| == |ml| == BlockSize(lMax, mMax)
    && forall n :: 0 <= n < |svi| ==> BucketAt(ps, SingleToMulti(n, lMax, mMax), i, c, svi[n], pn[n], ml[n])
  }

  /** Two cursors that split particle i's coefficients the same way describe the same state. */
  lemma SameProgress(ps: seq<Particle>, lMax: nat, mMax: nat, i: nat, c: Multipole, d: Multipole,
                     svi: seq<seq<int>>, pn: seq<seq<nat>>, ml: seq<Option<int>>)
    requires ValidParticles(ps) && ValidCutoffs(lMax, mMax) && i < |ps|
    requires forall t :: Valid(t, ps[i].lMax, ps[i].mMax) ==> (Visited(t, c) <==> Visited(t, d))
    requires Filled(ps, lMax, mMax, i, c, svi, pn, ml)
    ensures Filled(ps, lMax, mMax, i, d, svi, pn, ml)
  {
  }

  /** Once every coefficient of particle i is visited, the state is that of i + 1 particles. */
  lemma ParticleDone(ps: seq<Particle>, lMax: nat, mMax: nat, i: nat, c: Multipole,
                     svi: seq<seq<int>>, pn: seq<seq<nat>>, ml: seq<Option<int>>)
    requires ValidParticles(ps) && Covers(ps, lMax, mMax) && i < |ps|
    requires forall t :: Valid(t, ps[i].lMax, ps[i].mMax) ==> Visited(t, c)
    requires Filled(ps, lMax, mMax, i, c, svi, pn, ml)
    ensures Filled(ps, lMax, mMax, i + 1, Fresh(lMax), svi, pn, ml)
  {
    forall n | 0 <= n < |svi|
      ensures BucketAt(ps, SingleToMulti(n, lMax, mMax), i + 1, Fresh(lMax), svi[n], pn[n], ml[n])
    {
      var t := SingleToMulti(n, lMax, mMax);
      assert BucketAt(ps, t, i, c, svi[n], pn[n], ml[n]);
      var holds := Valid(t, ps[i].lMax, ps[i].mMax);
      assert SysIndices(ps, t, i + 1) == SysIndices(ps, t, i) + (if holds then [Position(ps, i, t)] else []);
      assert Holders(ps, t, i + 1) == Holders(ps, t, i) + (if holds then [i] else []);
      if i + 1 < |ps| && Valid(t, ps[i + 1].lMax, ps[i + 1].mMax) {
        assert ps[i + 1].mMax <= lMax;
        assert !Visited(t, Fresh(lMax));
      }
    }
  }

  /** The innermost statement: append index(i, tau, l, m) and i to bucket
      `multi_to_single_index(tau, l, m, l_max, m_max)` and record its order m. */
  method AddEntry(ps: seq<Particle>, lMax: nat, mMax: nat, i: nat, t: Multipole,
                  svi: seq<seq<int>>, pn: seq<seq<nat>>, ml: seq<Option<int>>)
    returns (svi': seq<seq<int>>, pn': seq<seq<nat>>, ml': seq<Option<int>>)
    requires ValidParticles(ps) && Covers(ps, lMax, mMax) && i < |ps| && Valid(t, ps[i].lMax, ps[i].mMax)
    requires Filled(ps, lMax, mMax, i, t, svi, pn, ml)
    ensures Filled(ps, lMax, mMax, i, Multipole(t.tau + 1, t.l, t.m), svi', pn', ml')
  {
    ValidUnderCover(ps, lMax, mMax, i, t);
    SingleToMultiOfFlat(t, lMax, mMax);
    var n := MultiToSingleIndex(t.tau, t.l, t.m, lMax, mMax);
    svi' := svi[n := svi[n] + [Position(ps, i, t)]];
    pn' := pn[n := pn[n] + [i]];
    ml' := ml[n := Some(t.m)];
    var c' := Multipole(t.tau + 1, t.l, t.m);
    forall n' | 0 <= n' < |svi'|
      ensures BucketAt(ps, SingleToMulti(n', lMax, mMax), i, c', svi'[n'], pn'[n'], ml'[n'])
    {
      var u := SingleToMulti(n', lMax, mMax);
      assert BucketAt(ps, u, i, t, svi[n'], pn[n'], ml[n']);
      if n' != n {
        FlatSurjective(n', lMax, mMax);
        assert u != t;
      }
    }
  }

  /** `for tau in range(2)` for particle i, degree l and order m. */
  method AddDegree(ps: seq<Particle>, lMax: nat, mMax: nat, i: nat, l: int, m: int,
                   svi: seq<seq<int>>, pn: seq<seq<nat>>, ml: seq<Option<int>>)
    returns (svi': seq<seq<int>>, pn': seq<seq<nat>>, ml': seq<Option<int>>)
    requires ValidParticles(ps) && Covers(ps, lMax, mMax) && i < |ps|
    requires -(ps[i].mMax as int) <= m <= ps[i].mMax && 1 <= l <= ps[i].lMax && (if m < 0 then -m else m) <= l
    requires Filled(ps, lMax, mMax, i, Multipole(0, l, m), svi, pn, ml)
    ensures Filled(ps, lMax, mMax, i, Multipole(0, l + 1, m), svi', pn', ml')
  {
    svi', pn', ml' := svi, pn, ml;
    for tau := 0 to 2
      invariant Filled(ps, lMax, mMax, i, Multipole(tau, l, m), svi', pn', ml')
    {
      svi', pn', ml' := AddEntry(ps, lMax, mMax, i, Multipole(tau, l, m), svi', pn', ml');
    }
    SameProgress(ps, lMax, mMax, i, Multipole(2, l, m), Multipole(0, l + 1, m), svi', pn', ml');
  }

  /** `for l in range(max(1, abs(m)), particle.l_max + 1)` for particle i and order m. */
  method AddOrder(ps: seq<Particle>, lMax: nat, mMax: nat, i: nat, m: int,
                  svi: seq<seq<int>>, pn: seq<seq<nat>>, ml: seq<Option<int>>)
    returns (svi': seq<seq<int>>, pn': seq<seq<nat>>, ml': seq<Option<int>>)
    requires ValidParticles(ps) && Covers(ps, lMax, mMax) && i < |ps|
    requires -(ps[i].mMax as int) <= m <= ps[i].mMax
    requires Filled(ps, lMax, mMax, i, Multipole(0, 0, m), svi, pn, ml)
    ensures Filled(ps, lMax, mMax, i, Multipole(0, 0, m + 1), svi', pn', ml')
  {
    var absM := if m < 0 then -m else m;
    var lo := if 1 < absM then absM else 1;
    SameProgress(ps, lMax, mMax, i, Multipole(0, 0, m), Multipole(0, lo, m), svi, pn, ml);
    svi', pn', ml' := svi, pn, ml;
    for l := lo to ps[i].lMax + 1
      invariant Filled(ps, lMax, mMax, i, Multipole(0, l, m), svi', pn', ml')
    {
      svi', pn', ml' := AddDegree(ps, lMax, mMax, i, l, m, svi', pn', ml');
    }
    SameProgress(ps, lMax, mMax, i, Multipole(0, ps[i].lMax + 1, m), Multipole(0, 0, m + 1), svi', pn', ml');
  }

  /** `for m in range(-particle.m_max, particle.m_max + 1)` for particle i. */
  method AddParticle(ps: seq<Particle>, lMax: nat, mMax: nat, i: nat,
                     svi: seq<seq<int>>, pn: seq<seq<nat>>, ml: seq<Option<int>>)
    returns (svi': seq<seq<int>>, pn': seq<seq<nat>>, ml': seq<Option<int>>)
    requires ValidParticles(ps) && Covers(ps, lMax, mMax) && i < |ps|
    requires Filled(ps, lMax, mMax, i, Fresh(lMax), svi, pn, ml)
    ensures Filled(ps, lMax, mMax, i + 1, Fresh(lMax), svi', pn', ml')
  {
    var mMaxI: int := ps[i].mMax;
    SameProgress(ps, lMax, mMax, i, Fresh(lMax), Multipole(0, 0, -mMaxI), svi, pn, ml);
    svi', pn', ml' := svi, pn, ml;
    for m := -mMaxI to mMaxI + 1
      invariant Filled(ps, lMax, mMax, i, Multipole(0, 0, m), svi', pn', ml')
    {
      svi', pn', ml' := AddOrder(ps, lMax, mMax, i, m, svi', pn', ml');
    }
    ParticleDone(ps, lMax, mMax, i, Multipole(0, 0, mMaxI + 1), svi', pn', ml');
  }

  /** Before the loops every bucket is empty and has no order. */
  lemma EmptyFilled(ps: seq<Particle>, lMax: nat, mMax: nat)
    requires ValidParticles(ps) && ValidCutoffs(lMax, mMax) && |ps| > 0
    ensures BlockSize(lMax, mMax) >= 0
    ensures Filled(ps, lMax, mMax, 0, Fresh(lMax), seq(BlockSize(lMax, mMax), _ => []),
                   seq(BlockSize(lMax, mMax), _ => []), seq(BlockSize(lMax, mMax), _ => None))
  {
    BlockSizeRagged(lMax, mMax);
    var size := BlockSize(lMax, mMax);
    var svi: seq<seq<int>>, pn: seq<seq<nat>>, ml: seq<Option<int>> := seq(size, _ => []), seq(size, _ => []), seq(size, _ => None);
    forall n | 0 <= n < size
      ensures BucketAt(ps, SingleToMulti(n, lMax, mMax), 0, Fresh(lMax), svi[n], pn[n], ml[n])
    {
      var t := SingleToMulti(n, lMax, mMax);
      FlatSurjective(n, lMax, mMax);
      assert !Visited(t, Fresh(lMax));
      assert SysIndices(ps, t, 0) == [] && Holders(ps, t, 0) == [] && OrderOf(ps, t, 0) == None;
    }
  }

  /** The lookup bookkeeping of `CouplingMatrix.__init__`: global cutoffs, the number
      of buckets and, per bucket, the system positions, their particles and the order m. */
  datatype LookupTable = LookupTable(
    lMax: nat, mMax: nat, nMax: nat,
    systemVectorIndexList: seq<seq<int>>,
    particleNumberList: seq<seq<nat>>,
    mList: seq<Option<int>>)

  /** The table the bucketing loops must produce for a particle list. */
  predicate IsLookupOf(tab: LookupTable, ps: seq<Particle>)
    requires |ps| > 0 && ValidParticles(ps)
  {
    && tab.lMax == MaxLMax(ps) && tab.mMax == MaxMMax(ps)
    && ValidCutoffs(tab.lMax, tab.mMax)
    && tab.nMax == BlockSize(tab.lMax, tab.mMax)
    && Filled(ps, tab.lMax, tab.mMax, |ps|, Fresh(tab.lMax), tab.systemVectorIndexList, tab.particleNumberList, tab.mList)
  }

  /** The loop `for i, particle in enumerate(particle_list)` over fresh, empty buckets. */
  method FillBuckets(ps: seq<Particle>, lMax: nat, mMax: nat)
    returns (svi: seq<seq<int>>, pn: seq<seq<nat>>, ml: seq<Option<int>>)
    requires |ps| > 0 && ValidParticles(ps) && Covers(ps, lMax, mMax)
    ensures Filled(ps, lMax, mMax, |ps|, Fresh(lMax), svi, pn, ml)
  {
    EmptyFilled(ps, lMax, mMax);
    var nMax := BlockSize(lMax, mMax);
    svi := seq(nMax, _ => []);
    pn := seq(nMax, _ => []);
    ml := seq(nMax, _ => None);
    for i := 0 to |ps|
      invariant Filled(ps, lMax, mMax, i, Fresh(lMax), svi, pn, ml)
    {
      svi, pn, ml := AddParticle(ps, lMax, mMax, i, svi, pn, ml);
    }
  }

  /** The bucketing of `CouplingMatrix.__init__` (the particle list is not empty: the
      coplanarity test reads `z_list[0]` first). */
  method BuildLookup(ps: seq<Particle>) returns (tab: LookupTable)
    requires |ps| > 0 && ValidParticles(ps)
    ensures IsLookupOf(tab, ps)
  {
    var lMax := MaxLMax(ps);
    var mMax := MaxMMax(ps);
    MaxCutoffsCover(ps);
    var svi, pn, ml := FillBuckets(ps, lMax, mMax);
    tab := LookupTable(lMax, mMax, BlockSize(lMax, mMax), svi, pn, ml);
  }

  // ---------------------------------------------------------------------------
  // What the finished table holds

  /** A holder list is strictly increasing: each particle appears at most once. */
  lemma {:induction false} HoldersIncreasing(ps: seq<Particle>, t: Multipole, k: nat, a: nat, b: nat)
    requires k <= |ps| && a < b < |Holders(ps, t, k)|
    ensures Holders(ps, t, k)[a] < Holders(ps, t, k)[b]
  {
    var prev := Holders(ps, t, k - 1);
    if b < |prev| {
      HoldersIncreasing(ps, t, k - 1, a, b);
    } else {
      assert Holders(ps, t, k)[a] == prev[a];
    }
  }

  /** Particle i appears in the holder list of t exactly when t is one of its coefficients. */
  lemma {:induction false} HoldersContain(ps: seq<Particle>, t: Multipole, k: nat, i: nat)
    requires i < k <= |ps| && Valid(t, ps[i].lMax, ps[i].mMax)
    ensures exists j :: 0 <= j < |Holders(ps, t, k)| && Holders(ps, t, k)[j] == i
  {
    var prev := Holders(ps, t, k - 1);
    if i < k - 1 {
      HoldersContain(ps, t, k - 1, i);
      var j :| 0 <= j < |prev| && prev[j] == i;
      assert Holders(ps, t, k)[j] == i;
    } else {
      assert Holders(ps, t, k)[|prev|] == i;
    }
  }

  /** In a finished table bucket n holds exactly the bucket of the multipole at n. */
  lemma BucketOfTable(tab: LookupTable, ps: seq<Particle>, n: nat)
    requires |ps| > 0 && ValidParticles(ps) && IsLookupOf(tab, ps) && n < tab.nMax
    ensures tab.systemVectorIndexList[n] == SysIndices(ps, SingleToMulti(n, tab.lMax, tab.mMax), |ps|)
    ensures tab.particleNumberList[n] == Holders(ps, SingleToMulti(n, tab.lMax, tab.mMax), |ps|)
    ensures tab.mList[n] == OrderOf(ps, SingleToMulti(n, tab.lMax, tab.mMax), |ps|)
  {
    assert BucketAt(ps, SingleToMulti(n, tab.lMax, tab.mMax), |ps|, Fresh(tab.lMax),
      tab.systemVectorIndexList[n], tab.particleNumberList[n], tab.mList[n]);
  }

  /** Every coefficient t of every particle i is in bucket
      `multi_to_single_index(t, l_max, m_max)` under the global cutoffs, with i at the
      same place in the particle list, and that bucket's order is t.m. */
  lemma LookupContains(tab: LookupTable, ps: seq<Particle>, i: nat, t: Multipole)
    requires |ps| > 0 && ValidParticles(ps) && IsLookupOf(tab, ps)
    requires i < |ps| && Valid(t, ps[i].lMax, ps[i].mMax)
    ensures 0 <= MultiToSingleIndex(t.tau, t.l, t.m, tab.lMax, tab.mMax) < tab.nMax
    ensures var n := MultiToSingleIndex(t.tau, t.l, t.m, tab.lMax, tab.mMax);
      && tab.mList[n] == Some(t.m)
      && exists k :: 0 <= k < |tab.systemVectorIndexList[n]| && k < |tab.particleNumberList[n]|
           && tab.systemVectorIndexList[n][k] == Position(ps, i, t) && tab.particleNumberList[n][k] == i
  {
    MaxCutoffsCover(ps);
    ValidUnderCover(ps, tab.lMax, tab.mMax, i, t);
    SingleToMultiOfFlat(t, tab.lMax, tab.mMax);
    var n := MultiToSingleIndex(t.tau, t.l, t.m, tab.lMax, tab.mMax);
    BucketOfTable(tab, ps, n);
    HoldersContain(ps, t, |ps|, i);
  }

  /** ... and nowhere else: an entry of any bucket that is the position of coefficient t
      of particle i sits in t's bucket, next to i. */
  lemma LookupUnique(tab: LookupTable, ps: seq<Particle>, n: nat, k: nat, i: nat, t: Multipole)
    requires |ps| > 0 && ValidParticles(ps) && IsLookupOf(tab, ps)
    requires i < |ps| && Valid(t, ps[i].lMax, ps[i].mMax)
    requires n < tab.nMax && k < |tab.systemVectorIndexList[n]| && tab.systemVectorIndexList[n][k] == Position(ps, i, t)
    ensures n == MultiToSingleIndex(t.tau, t.l, t.m, tab.lMax, tab.mMax)
    ensures k < |tab.particleNumberList[n]| && tab.particleNumberList[n][k] == i
  {
    var u := SingleToMulti(n, tab.lMax, tab.mMax);
    BucketOfTable(tab, ps, n);
    var h := Holders(ps, u, |ps|);
    PositionInjective(ps, h[k], u, i, t);
    FlatSurjective(n, tab.lMax, tab.mMax);
  }

  /** The buckets cover the system vector: every position belongs to some bucket. */
  lemma LookupCoversEveryPosition(tab: LookupTable, ps: seq<Particle>, r: nat)
    requires |ps| > 0 && ValidParticles(ps) && IsLookupOf(tab, ps) && r < Total(Sizes(ps))
    ensures exists n, k :: 0 <= n < tab.nMax && 0 <= k < |tab.systemVectorIndexList[n]| && tab.systemVectorIndexList[n][k] == r
  {
    var i, t := ParticleAt(ps, r), MultipoleAt(ps, r);
    LookupContains(tab, ps, i, t);
  }

  /** An order is recorded exactly for the buckets that some particle wrote. */
  lemma LookupOrderSet(tab: LookupTable, ps: seq<Particle>, n: nat)
    requires |ps| > 0 && ValidParticles(ps) && IsLookupOf(tab, ps) && n < tab.nMax
    ensures tab.mList[n].Some? <==> |tab.systemVectorIndexList[n]| > 0
    ensures tab.mList[n].Some? ==> tab.mList[n].value == SingleToMulti(n, tab.lMax, tab.mMax).m
  {
    BucketOfTable(tab, ps, n);
  }

  /** The shape the on-the-fly apply relies on: matching list lengths, and system
      positions below size, each held by one entry of one bucket. */
  predicate TableShape(tab: LookupTable, size: nat)
  {
    && |tab.systemVectorIndexList| == |tab.particleNumberList| == |tab.mList| == tab.nMax
    && (forall n :: 0 <= n < tab.nMax ==> |tab.systemVectorIndexList[n]| == |tab.particleNumberList[n]|)
    && (forall n, k :: 0 <= n < tab.nMax && 0 <= k < |tab.systemVectorIndexList[n]| ==>
          0 <= tab.systemVectorIndexList[n][k] < size)
    && (forall n, k, n', k' ::
          (&& 0 <= n < tab.nMax && 0 <= k < |tab.systemVectorIndexList[n]|
           && 0 <= n' < tab.nMax && 0 <= k' < |tab.systemVectorIndexList[n']|
           && tab.systemVectorIndexList[n][k] == tab.systemVectorIndexList[n'][k'])
          ==> n == n' && k == k')
  }

  /** Distinct entries of one bucket are different positions. */
  lemma BucketEntriesDistinct(tab: LookupTable, ps: seq<Particle>, n: nat, k: nat, k': nat)
    requires |ps| > 0 && ValidParticles(ps) && IsLookupOf(tab, ps) && n < tab.nMax
    requires k < k' < |tab.systemVectorIndexList[n]|
    ensures tab.systemVectorIndexList[n][k] != tab.systemVectorIndexList[n][k']
  {
    var u := SingleToMulti(n, tab.lMax, tab.mMax);
    BucketOfTable(tab, ps, n);
    var h := Holders(ps, u, |ps|);
    HoldersIncreasing(ps, u, |ps|, k, k');
    if Position(ps, h[k], u) == Position(ps, h[k'], u) {
      PositionInjective(ps, h[k], u, h[k'], u);
    }
  }

  /** A table built from a particle list has the shape the apply relies on. */
  lemma LookupShape(tab: LookupTable, ps: seq<Particle>)
    requires |ps| > 0 && ValidParticles(ps) && IsLookupOf(tab, ps)
    ensures TableShape(tab, Total(Sizes(ps)))
  {
    var svi := tab.systemVectorIndexList;
    forall n, k | 0 <= n < tab.nMax && 0 <= k < |svi[n]|
      ensures 0 <= svi[n][k] < Total(Sizes(ps))
    {
      BucketOfTable(tab, ps, n);
      AtPosition(ps, Holders(ps, SingleToMulti(n, tab.lMax, tab.mMax), |ps|)[k], SingleToMulti(n, tab.lMax, tab.mMax));
    }
    forall n, k, n', k' |
        0 <= n < tab.nMax && 0 <= k < |svi[n]| && 0 <= n' < tab.nMax && 0 <= k' < |svi[n']| && svi[n][k] == svi[n'][k']
      ensures n == n' && k == k'
    {
      BucketOfTable(tab, ps, n);
      var u := SingleToMulti(n, tab.lMax, tab.mMax);
      var i := Holders(ps, u, |ps|)[k];
      FlatSurjective(n, tab.lMax, tab.mMax);
      LookupUnique(tab, ps, n', k', i, u);
      if k < k' {
        BucketEntriesDistinct(tab, ps, n, k, k');
      } else if k' < k {
        BucketEntriesDistinct(tab, ps, n, k', k);
      }
    }
  }
}
