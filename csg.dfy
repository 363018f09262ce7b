/** The pure part of csg.js: which intersections a constructive-solid-geometry node keeps.
    The node itself (its children and their parent links) lives in the `Shapes` module. */
module CsgRules {
  const UNION: string := "union"
  const INTERSECTION: string := "intersection"
  const DIFFERENCE: string := "difference"

  /** `Csg.intersectionAllowed(op, lhit, inl, inr)`: whether a hit on the left child (lhit)
      or on the right one is kept, given whether the ray is inside the left (inl) and the
      right (inr) child at that point. An unknown operation keeps nothing. */
  function IntersectionAllowed(op: string, lhit: bool, inl: bool, inr: bool): (allowed: bool)
    ensures op != UNION && op != INTERSECTION && op != DIFFERENCE ==> !allowed
  {
    if op == UNION then (lhit && !inr) || (!lhit && !inl)
    else if op == INTERSECTION then (lhit && inr) || (!lhit && inl)
    else if op == DIFFERENCE then (lhit && !inr) || (!lhit && inl)
    else false
  }

  /** Whether a point inside the left child exactly when `inl` and inside the right child
      exactly when `inr` is inside the combined solid. */
  predicate InsideCombined(op: string, inl: bool, inr: bool)
    requires op == UNION || op == INTERSECTION || op == DIFFERENCE
  {
    if op == UNION then inl || inr
    else if op == INTERSECTION then inl && inr
    else inl && !inr
  }

  /** The rule keeps exactly the hits on the combined solid's surface: a hit on one child is
      kept if and only if crossing that child's surface (flipping its inside flag) changes
      whether the point is inside the combined solid. */
  lemma AllowedIffBoundary(op: string, lhit: bool, inl: bool, inr: bool)
    requires op == UNION || op == INTERSECTION || op == DIFFERENCE
    ensures lhit ==> (IntersectionAllowed(op, lhit, inl, inr)
                      <==> InsideCombined(op, inl, inr) != InsideCombined(op, !inl, inr))
    ensures !lhit ==> (IntersectionAllowed(op, lhit, inl, inr)
                       <==> InsideCombined(op, inl, inr) != InsideCombined(op, inl, !inr))
  {
  }

  /** A left hit never depends on whether the ray is inside the left child, and a right hit
      never on whether it is inside the right child. */
  lemma OwnSideIrrelevant(op: string, inl: bool, inr: bool)
    ensures IntersectionAllowed(op, true, inl, inr) == IntersectionAllowed(op, true, !inl, inr)
    ensures IntersectionAllowed(op, false, inl, inr) == IntersectionAllowed(op, false, inl, !inr)
  {
  }

  /** The eight rows of each operation's table as the examples list them
      (lhit, inl, inr, result). */
  lemma TruthTables()
    ensures IntersectionAllowed(UNION, true, true, true) == false
    ensures IntersectionAllowed(UNION, true, true, false) == true
    ensures IntersectionAllowed(UNION, true, false, true) == false
    ensures IntersectionAllowed(UNION, true, false, false) == true
    ensures IntersectionAllowed(UNION, false, true, true) == false
    ensures IntersectionAllowed(UNION, false, true, false) == false
    ensures IntersectionAllowed(UNION, false, false, true) == true
    ensures IntersectionAllowed(UNION, false, false, false) == true
    ensures IntersectionAllowed(INTERSECTION, true, true, true) == true
    ensures IntersectionAllowed(INTERSECTION, true, true, false) == false
    ensures IntersectionAllowed(INTERSECTION, true, false, true) == true
    ensures IntersectionAllowed(INTERSECTION, true, false, false) == false
    ensures IntersectionAllowed(INTERSECTION, false, true, true) == true
    ensures IntersectionAllowed(INTERSECTION, false, true, false) == true
    ensures IntersectionAllowed(INTERSECTION, false, false, true) == false
    ensures IntersectionAllowed(INTERSECTION, false, false, false) == false
    ensures IntersectionAllowed(DIFFERENCE, true, true, true) == false
    ensures IntersectionAllowed(DIFFERENCE, true, true, false) == true
    ensures IntersectionAllowed(DIFFERENCE, true, false, true) == false
    ensures IntersectionAllowed(DIFFERENCE, true, false, false) == true
    ensures IntersectionAllowed(DIFFERENCE, false, true, true) == true
    ensures IntersectionAllowed(DIFFERENCE, false, true, false) == true
    ensures IntersectionAllowed(DIFFERENCE, false, false, true) == false
    ensures IntersectionAllowed(DIFFERENCE, false, false, false) == false
  {
  }
}
