/** The flat numbering of spherical-wave coefficients (tau, l, m): polarization tau
    outermost, then degree l, then order m, with |m| bounded by min(l, m_max). */
module MultipoleIndex {

  /** A multipole index: polarization tau (0 = TE, 1 = TM), degree l, order m. */
  datatype Multipole = Multipole(tau: int, l: int, m: int)

  function Min(a: int, b: int): int { if a <= b then a else b }

  /** Cutoffs the flat numbering is defined for. */
  predicate ValidCutoffs(lMax: int, mMax: int)
  {
    0 <= mMax <= lMax
  }

  /** (tau, l, m) is a coefficient of an expansion with cutoffs (lMax, mMax). */
  predicate Valid(t: Multipole, lMax: int, mMax: int)
  {
    && (t.tau == 0 || t.tau == 1)
    && 1 <= t.l <= lMax
    && -Min(t.l, mMax) <= t.m <= Min(t.l, mMax)
  }

  /** Lexicographic order on (tau, l, m). */
  predicate LexLess(s: Multipole, t: Multipole)
  {
    || s.tau < t.tau
    || (s.tau == t.tau && s.l < t.l)
    || (s.tau == t.tau && s.l == t.l && s.m < t.m)
  }

  /** Number of coefficients of one polarization, in closed form. */
  function TauBlocksize(lMax: int, mMax: int): int
  {
    mMax * (mMax + 2) + (lMax - mMax) * (2 * mMax + 1)
  }

  /** Number of coefficients of one polarization with degree below l, in closed form. */
  function RowOffset(l: int, mMax: int): int
  {
    if l - 1 <= mMax then (l - 1) * (l - 1 + 2)
    else mMax * (mMax + 2) + (l - 1 - mMax) * (2 * mMax + 1)
  }

  /** The flat position of coefficient (tau, l, m) under cutoffs (lMax, mMax). */
  function MultiToSingleIndex(tau: int, l: int, m: int, lMax: int, mMax: int): int
  {
    tau * TauBlocksize(lMax, mMax) + RowOffset(l, mMax) + m + Min(l, mMax)
  }

  function Flat(t: Multipole, lMax: int, mMax: int): int
  {
    MultiToSingleIndex(t.tau, t.l, t.m, lMax, mMax)
  }

  /** Number of coefficients of an expansion: the position of the last one plus one. */
  function BlockSize(lMax: int, mMax: int): int
  {
    MultiToSingleIndex(1, lMax, mMax, lMax, mMax) + 1
  }

  /** Reference definition: the ragged count sum_{l'=1}^{l-1} (2 min(l', mMax) + 1). */
  function RaggedCount(l: int, mMax: int): int
    decreases l
  {
    if l <= 1 then 0 else RaggedCount(l - 1, mMax) + 2 * Min(l - 1, mMax) + 1
  }

  lemma {:induction false} RaggedCountMonotone(l1: int, l2: int, mMax: int)
    requires 1 <= l1 <= l2 && 0 <= mMax
    ensures RaggedCount(l1, mMax) <= RaggedCount(l2, mMax)
    decreases l2 - l1
  {
    if l1 < l2 {
      RaggedCountMonotone(l1, l2 - 1, mMax);
    }
  }

  /** The closed-form row offset equals the ragged sum it is derived from. */
  lemma {:induction false} RowOffsetIsRaggedCount(l: int, mMax: int)
    requires 1 <= l && 0 <= mMax
    ensures RowOffset(l, mMax) == RaggedCount(l, mMax)
    decreases l
  {
    if l > 1 {
      RowOffsetIsRaggedCount(l - 1, mMax);
      if l - 1 <= mMax {
        assert RowOffset(l - 1, mMax) == (l - 2) * l;
        assert (l - 1) * (l + 1) == (l - 2) * l + 2 * (l - 1) + 1;
      } else if l - 2 <= mMax {
        assert l - 2 == mMax;
        assert RowOffset(l - 1, mMax) == (l - 2) * l;
        assert mMax * (mMax + 2) + (l - 1 - mMax) * (2 * mMax + 1)
            == (l - 2) * l + 2 * mMax + 1;
      } else {
        assert mMax * (mMax + 2) + (l - 1 - mMax) * (2 * mMax + 1)
            == mMax * (mMax + 2) + (l - 2 - mMax) * (2 * mMax + 1) + 2 * mMax + 1;
      }
    }
  }

  /** One polarization holds exactly the ragged count of rows 1..lMax. */
  lemma TauBlocksizeIsRaggedCount(lMax: int, mMax: int)
    requires ValidCutoffs(lMax, mMax)
    ensures TauBlocksize(lMax, mMax) == RaggedCount(lMax + 1, mMax)
  {
    RowOffsetIsRaggedCount(lMax + 1, mMax);
    if lMax <= mMax {
      assert lMax == mMax;
    }
  }

  /** blocksize is twice the closed-form polarization block, that is, twice the
      number of valid (l, m) pairs. */
  lemma BlockSizeCount(lMax: int, mMax: int)
    requires ValidCutoffs(lMax, mMax)
    ensures BlockSize(lMax, mMax) == 2 * TauBlocksize(lMax, mMax)
    ensures BlockSize(lMax, mMax) == 2 * RaggedCount(lMax + 1, mMax)
    ensures BlockSize(lMax, mMax) == 2 * (mMax * (mMax + 2) + (lMax - mMax) * (2 * mMax + 1))
  {
    assert BlockSize(lMax, mMax) == TauBlocksize(lMax, mMax) + RowOffset(lMax, mMax) + 2 * mMax + 1;
    if mMax == lMax {
      assert RowOffset(lMax, mMax) == (lMax - 1) * (lMax + 1);
      assert (lMax - 1) * (lMax + 1) + 2 * lMax + 1 == lMax * (lMax + 2);
    } else if mMax == lMax - 1 {
      assert RowOffset(lMax, mMax) == (lMax - 1) * (lMax + 1);
      assert (lMax - 1) * (lMax + 1) == mMax * (mMax + 2);
    } else {
      assert RowOffset(lMax, mMax) == mMax * (mMax + 2) + (lMax - 1 - mMax) * (2 * mMax + 1);
      assert (lMax - 1 - mMax) * (2 * mMax + 1) + 2 * mMax + 1 == (lMax - mMax) * (2 * mMax + 1);
    }
    TauBlocksizeIsRaggedCount(lMax, mMax);
  }

  /** The position of (tau, l, m) splits into its polarization block, its row and its column. */
  lemma FlatDecomposition(t: Multipole, lMax: int, mMax: int)
    requires ValidCutoffs(lMax, mMax) && Valid(t, lMax, mMax)
    ensures Flat(t, lMax, mMax)
         == (if t.tau == 0 then 0 else RaggedCount(lMax + 1, mMax))
            + RaggedCount(t.l, mMax) + t.m + Min(t.l, mMax)
    ensures RaggedCount(t.l + 1, mMax) == RaggedCount(t.l, mMax) + 2 * Min(t.l, mMax) + 1
    ensures 0 <= RaggedCount(t.l, mMax) < RaggedCount(t.l + 1, mMax) <= RaggedCount(lMax + 1, mMax)
  {
    RaggedCountMonotone(1, t.l, mMax);
    TauBlocksizeIsRaggedCount(lMax, mMax);
    RowOffsetIsRaggedCount(t.l, mMax);
    RaggedCountMonotone(t.l + 1, lMax + 1, mMax);
    if t.tau == 0 {
      assert t.tau * TauBlocksize(lMax, mMax) == 0;
    } else {
      assert t.tau * TauBlocksize(lMax, mMax) == TauBlocksize(lMax, mMax);
    }
  }

  /** Every valid coefficient lands in [0, blocksize). */
  lemma FlatInRange(t: Multipole, lMax: int, mMax: int)
    requires ValidCutoffs(lMax, mMax) && Valid(t, lMax, mMax)
    ensures 0 <= Flat(t, lMax, mMax) < BlockSize(lMax, mMax)
  {
    FlatDecomposition(t, lMax, mMax);
    BlockSizeRagged(lMax, mMax);
    var half, row := RaggedCount(lMax + 1, mMax), RaggedCount(t.l, mMax);
    var f := Flat(t, lMax, mMax);
    assert f == (if t.tau == 0 then 0 else half) + row + t.m + Min(t.l, mMax);
    assert row + t.m + Min(t.l, mMax) < half;
  }

  /** The numbering is strictly increasing in the lexicographic order of (tau, l, m). */
  lemma FlatMonotone(s: Multipole, t: Multipole, lMax: int, mMax: int)
    requires ValidCutoffs(lMax, mMax) && Valid(s, lMax, mMax) && Valid(t, lMax, mMax)
    requires LexLess(s, t)
    ensures Flat(s, lMax, mMax) < Flat(t, lMax, mMax)
  {
    FlatDecomposition(s, lMax, mMax);
    FlatDecomposition(t, lMax, mMax);
    var half := RaggedCount(lMax + 1, mMax);
    var rs, rt := RaggedCount(s.l, mMax), RaggedCount(t.l, mMax);
    var fs, ft := Flat(s, lMax, mMax), Flat(t, lMax, mMax);
    assert fs == (if s.tau == 0 then 0 else half) + rs + s.m + Min(s.l, mMax);
    assert ft == (if t.tau == 0 then 0 else half) + rt + t.m + Min(t.l, mMax);
    assert rs + s.m + Min(s.l, mMax) < RaggedCount(s.l + 1, mMax) <= half;
    if s.tau == t.tau && s.l < t.l {
      RaggedCountMonotone(s.l + 1, t.l, mMax);
    }
  }

  /** Distinct valid coefficients get distinct positions. */
  lemma FlatInjective(s: Multipole, t: Multipole, lMax: int, mMax: int)
    requires ValidCutoffs(lMax, mMax) && Valid(s, lMax, mMax) && Valid(t, lMax, mMax)
    requires Flat(s, lMax, mMax) == Flat(t, lMax, mMax)
    ensures s == t
  {
    if LexLess(s, t) {
      FlatMonotone(s, t, lMax, mMax);
    } else if LexLess(t, s) {
      FlatMonotone(t, s, lMax, mMax);
    }
  }

  /** The degree whose row of one polarization block holds offset r, searching from l. */
  function RowOf(r: int, l: int, lMax: int, mMax: int): int
    requires 1 <= l <= lMax
    decreases lMax - l
  {
    if l == lMax || r < RaggedCount(l + 1, mMax) then l else RowOf(r, l + 1, lMax, mMax)
  }

  lemma {:induction false} RowOfSpec(r: int, l: int, lMax: int, mMax: int)
    requires ValidCutoffs(lMax, mMax) && 1 <= l <= lMax
    requires RaggedCount(l, mMax) <= r < RaggedCount(lMax + 1, mMax)
    ensures l <= RowOf(r, l, lMax, mMax) <= lMax
    ensures RaggedCount(RowOf(r, l, lMax, mMax), mMax) <= r < RaggedCount(RowOf(r, l, lMax, mMax) + 1, mMax)
    decreases lMax - l
  {
    if l < lMax && RaggedCount(l + 1, mMax) <= r {
      RowOfSpec(r, l + 1, lMax, mMax);
    }
  }

  /** blocksize is twice the ragged count, hence never negative. */
  lemma BlockSizeRagged(lMax: int, mMax: int)
    requires ValidCutoffs(lMax, mMax)
    ensures BlockSize(lMax, mMax) == 2 * RaggedCount(lMax + 1, mMax) && BlockSize(lMax, mMax) >= 0
  {
    BlockSizeCount(lMax, mMax);
    RaggedCountMonotone(1, lMax + 1, mMax);
  }

  /** `blocksize` for valid cutoffs, as a count. */
  function BlockSizeOf(lMax: int, mMax: int): (n: nat)
    requires ValidCutoffs(lMax, mMax)
    ensures n == BlockSize(lMax, mMax)
  {
    BlockSizeRagged(lMax, mMax);
    BlockSize(lMax, mMax)
  }

  /** Inverse of the flat numbering. */
  function SingleToMulti(n: int, lMax: int, mMax: int): Multipole
    requires ValidCutoffs(lMax, mMax) && 0 <= n < BlockSize(lMax, mMax)
  {
    BlockSizeRagged(lMax, mMax);
    var half := RaggedCount(lMax + 1, mMax);
    var tau := if n < half then 0 else 1;
    var r := if n < half then n else n - half;
    var l := RowOf(r, 1, lMax, mMax);
    Multipole(tau, l, r - RaggedCount(l, mMax) - Min(l, mMax))
  }

  /** Every position in [0, blocksize) is the position of a valid coefficient:
      together with FlatInjective and FlatInRange the numbering is a bijection. */
  lemma FlatSurjective(n: int, lMax: int, mMax: int)
    requires ValidCutoffs(lMax, mMax) && 0 <= n < BlockSize(lMax, mMax)
    ensures Valid(SingleToMulti(n, lMax, mMax), lMax, mMax)
    ensures Flat(SingleToMulti(n, lMax, mMax), lMax, mMax) == n
  {
    BlockSizeRagged(lMax, mMax);
    var half := RaggedCount(lMax + 1, mMax);
    var tau := if n < half then 0 else 1;
    var r := if n < half then n else n - half;
    RowOfSpec(r, 1, lMax, mMax);
    var t := SingleToMulti(n, lMax, mMax);
    var l := RowOf(r, 1, lMax, mMax);
    assert t.l == l;
    FlatDecomposition(Multipole(tau, l, 0), lMax, mMax);
    assert Valid(t, lMax, mMax);
    FlatDecomposition(t, lMax, mMax);
  }

  /** Flat and SingleToMulti are mutually inverse on valid coefficients. */
  lemma SingleToMultiOfFlat(t: Multipole, lMax: int, mMax: int)
    requires ValidCutoffs(lMax, mMax) && Valid(t, lMax, mMax)
    ensures 0 <= Flat(t, lMax, mMax) < BlockSize(lMax, mMax)
    ensures SingleToMulti(Flat(t, lMax, mMax), lMax, mMax) == t
  {
    FlatInRange(t, lMax, mMax);
    var n := Flat(t, lMax, mMax);
    FlatSurjective(n, lMax, mMax);
    FlatInjective(SingleToMulti(n, lMax, mMax), t, lMax, mMax);
  }
}
