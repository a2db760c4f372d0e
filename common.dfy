/** Small shared vocabulary: optional values, the exceptions the engine raises,
    points in space and the bounds of a z-validity interval. */
module Common {

  datatype Option<+T> = None | Some(value: T)

  /** The Python exception classes raised by the modelled code. */
  datatype Error =
    | ValueError
    | TypeError
    | IndexError
    | AttributeError
    | NotImplementedError

  datatype Result<+T> = Ok(value: T) | Err(error: Error)

  /** A Cartesian point (x, y, z). */
  datatype Point = Point(x: real, y: real, z: real)

  /** A bound of a validity interval; the infinities stand for `np.inf`. */
  datatype Bound = NegInf | At(z: real) | PosInf

  predicate BoundLe(a: Bound, b: Bound)
  {
    match (a, b)
    case (NegInf, _) => true
    case (_, PosInf) => true
    case (At(x), At(y)) => x <= y
    case _ => false
  }

  function MinBound(a: Bound, b: Bound): Bound
  {
    if BoundLe(a, b) then a else b
  }

  function MaxBound(a: Bound, b: Bound): Bound
  {
    if BoundLe(a, b) then b else a
  }

  /** A validity interval as the source stores it: a 2-tuple whose ends may come in
      either order; `min` and `max` of the tuple are its lower and upper end. */
  datatype ValidRange = ValidRange(first: Bound, second: Bound)
  {
    function Lo(): Bound { MinBound(first, second) }
    function Hi(): Bound { MaxBound(first, second) }
  }

  /** z lies in the closed interval between the two ends of v. */
  predicate Within(z: real, v: ValidRange)
  {
    BoundLe(v.Lo(), At(z)) && BoundLe(At(z), v.Hi())
  }

  /** The tuple (max of the lower ends, min of the upper ends) built when two
      expansions are added. */
  function Intersect(v: ValidRange, w: ValidRange): ValidRange
  {
    ValidRange(MaxBound(v.Lo(), w.Lo()), MinBound(v.Hi(), w.Hi()))
  }

  lemma BoundLeTotal(a: Bound, b: Bound)
    ensures BoundLe(a, b) || BoundLe(b, a)
  {
  }

  lemma BoundLeAntisymmetric(a: Bound, b: Bound)
    requires BoundLe(a, b) && BoundLe(b, a)
    ensures a == b
  {
  }

  lemma BoundLeTransitive(a: Bound, b: Bound, c: Bound)
    requires BoundLe(a, b) && BoundLe(b, c)
    ensures BoundLe(a, c)
  {
  }

  /** Intersection does not depend on the order of its operands. */
  lemma IntersectCommutes(v: ValidRange, w: ValidRange)
    ensures Intersect(v, w) == Intersect(w, v)
  {
    BoundLeTotal(v.Lo(), w.Lo());
    BoundLeTotal(v.Hi(), w.Hi());
    if BoundLe(v.Lo(), w.Lo()) && BoundLe(w.Lo(), v.Lo()) {
      BoundLeAntisymmetric(v.Lo(), w.Lo());
    }
    if BoundLe(v.Hi(), w.Hi()) && BoundLe(w.Hi(), v.Hi()) {
      BoundLeAntisymmetric(v.Hi(), w.Hi());
    }
  }

  /** When two intervals overlap, their intersection holds exactly the points
      that lie in both. */
  lemma IntersectWithin(z: real, v: ValidRange, w: ValidRange)
    requires BoundLe(MaxBound(v.Lo(), w.Lo()), MinBound(v.Hi(), w.Hi()))
    ensures Within(z, Intersect(v, w)) <==> Within(z, v) && Within(z, w)
  {
    var lo, hi := MaxBound(v.Lo(), w.Lo()), MinBound(v.Hi(), w.Hi());
    BoundLeTotal(v.Lo(), w.Lo());
    BoundLeTotal(v.Hi(), w.Hi());
    BoundLeTotal(v.first, v.second);
    BoundLeTotal(w.first, w.second);
    assert Intersect(v, w).Lo() == lo && Intersect(v, w).Hi() == hi;
  }

  /** When two intervals do not overlap, the stored tuple has its ends swapped. Read
      back through min and max it is the gap between them, and a point of that gap
      lies in both intervals only where they touch. */
  lemma IntersectOfDisjointCoversGap(z: real, v: ValidRange, w: ValidRange)
    requires BoundLe(MinBound(v.Hi(), w.Hi()), MaxBound(v.Lo(), w.Lo()))
    ensures Within(z, Intersect(v, w)) <==>
      BoundLe(MinBound(v.Hi(), w.Hi()), At(z)) && BoundLe(At(z), MaxBound(v.Lo(), w.Lo()))
    ensures Within(z, v) && Within(z, w) ==>
      MinBound(v.Hi(), w.Hi()) == At(z) && MaxBound(v.Lo(), w.Lo()) == At(z)
  {
    var lo, hi := MaxBound(v.Lo(), w.Lo()), MinBound(v.Hi(), w.Hi());
    if BoundLe(lo, hi) {
      BoundLeAntisymmetric(lo, hi);
    }
    assert Intersect(v, w).Lo() == hi && Intersect(v, w).Hi() == lo;
    if Within(z, v) && Within(z, w) {
      BoundLeTotal(v.Lo(), w.Lo());
      BoundLeTotal(v.Hi(), w.Hi());
      assert BoundLe(lo, At(z)) && BoundLe(At(z), hi);
      BoundLeTransitive(hi, lo, At(z));
      BoundLeAntisymmetric(hi, At(z));
      BoundLeTransitive(At(z), hi, lo);
      BoundLeAntisymmetric(lo, At(z));
    }
  }
}
