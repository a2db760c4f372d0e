/** The scatterers the linear system works on. Only the attributes the linear system
    reads or writes are modelled; the initial field and the T-matrix are attached
    before the system is solved and are not changed by it. */
module Particles {
  import opened Common
  import opened MultipoleIndex
  import opened LinAlg
  import opened FieldExpansion

  class Particle {
    const position: Point
    const lMax: nat
    const mMax: nat
    /** The particle's T-matrix, blocksize x blocksize. */
    const tMatrix: Matrix
    /** The initial field expanded about the particle (regular waves). */
    const initialField: Swe
    /** Written by `LinearSystem.solve`. */
    var scatteredField: Option<Swe>

    constructor (position: Point, lMax: nat, mMax: nat, tMatrix: Matrix, initialField: Swe)
      ensures this.position == position && this.lMax == lMax && this.mMax == mMax
      ensures this.tMatrix == tMatrix && this.initialField == initialField
      ensures scatteredField.None?
    {
      this.position := position;
      this.lMax := lMax;
      this.mMax := mMax;
      this.tMatrix := tMatrix;
      this.initialField := initialField;
      scatteredField := None;
    }
  }

  /** Every particle's cutoffs satisfy 0 <= m_max <= l_max. */
  predicate ValidParticles(ps: seq<Particle>)
  {
    forall i :: 0 <= i < |ps| ==> ValidCutoffs(ps[i].lMax, ps[i].mMax)
  }

  /** `[fldex.blocksize(particle.l_max, particle.m_max) for particle in particle_list]`. */
  function Sizes(ps: seq<Particle>): (sizes: seq<nat>)
    requires ValidParticles(ps)
    ensures |sizes| == |ps|
    ensures forall i :: 0 <= i < |ps| ==> sizes[i] == BlockSize(ps[i].lMax, ps[i].mMax)
  {
    seq(|ps|, i requires 0 <= i < |ps| => BlockSizeOf(ps[i].lMax, ps[i].mMax))
  }

  function TMatrices(ps: seq<Particle>): (ts: seq<Matrix>)
    ensures |ts| == |ps| && forall i :: 0 <= i < |ps| ==> ts[i] == ps[i].tMatrix
  {
    seq(|ps|, i requires 0 <= i < |ps| => ps[i].tMatrix)
  }

  /** Every particle lies at the height of the first one, so all share one plane z = const. */
  predicate Coplanar(ps: seq<Particle>)
  {
    forall i :: 0 <= i < |ps| ==> ps[i].position.z == ps[0].position.z
  }
}
