/**
  What every tracked object shares: a session id, a touch-point motion state, and the two
  numeric rules the records apply when a coordinate is written — motion inference by fuzzy
  comparison, and folding of angles above pi.
 */
module Motion {

  /** The touch-point states the tracker uses (Qt::TouchPointState). */
  datatype MotionState = Pressed | Moved | Stationary | Released

  /** A tracked object: the session id and motion state common to every class, and a
      class-specific pose (the remaining attributes). */
  datatype Entity<P> = Entity(id: int, state: MotionState, pose: P)

  /** M_PI, the value the angle rule compares against. */
  const Pi: real := 3.14159265358979323846

  function Abs(r: real): real {
    if r < 0.0 then -r else r
  }

  function Min(a: real, b: real): real {
    if a <= b then a else b
  }

  /** Qt's qFuzzyCompare for doubles, read over exact reals: two values are equal when their
      difference, scaled by 10^12, does not exceed the smaller magnitude. */
  predicate FuzzyCompare(p1: real, p2: real) {
    Abs(p1 - p2) * 1000000000000.0 <= Min(Abs(p1), Abs(p2))
  }

  /** The comparison the coordinate setters make: both values are shifted by 2.0 first, so
      that coordinates at or near 0 are not compared against zero. */
  predicate SamePlace(stored: real, incoming: real) {
    FuzzyCompare(stored + 2.0, incoming + 2.0)
  }

  /** The state after a coordinate that takes part in motion inference is overwritten. */
  function Track(s: MotionState, stored: real, incoming: real): MotionState {
    if s == Stationary && !SamePlace(stored, incoming) then Moved else s
  }

  /** Writes a coordinate that takes part in motion inference (x, y or angle): the new pose
      is stored, and a Stationary object whose coordinate really changed becomes Moved. */
  function Relocate<P>(e: Entity<P>, stored: real, incoming: real, pose: P): (r: Entity<P>)
    ensures r.id == e.id && r.pose == pose
    ensures e.state != Stationary ==> r.state == e.state
    ensures e.state == Stationary ==> (r.state == Moved <==> !SamePlace(stored, incoming))
    ensures r.state == e.state || r.state == Moved
  {
    e.(state := Track(e.state, stored, incoming), pose := pose)
  }

  /** The angle rule: a value above pi has 2 pi subtracted, once. */
  function FoldAngle(a: real): real {
    if a > Pi then a - 2.0 * Pi else a
  }

  /** A value is always the same place as itself, so rewriting an unchanged coordinate
      never reports motion. */
  lemma SamePlaceReflexive(v: real)
    ensures SamePlace(v, v)
  {
  }

  lemma SamePlaceSymmetric(a: real, b: real)
    ensures SamePlace(a, b) <==> SamePlace(b, a)
  {
  }

  /** On the normalised plane [0, 1], coordinates that differ by at least 10^-11 are never
      the same place: a real move is always detected. */
  lemma DistantCoordinatesDiffer(stored: real, incoming: real)
    requires 0.0 <= stored <= 1.0 && 0.0 <= incoming <= 1.0
    requires Abs(stored - incoming) >= 0.00000000001
    ensures !SamePlace(stored, incoming)
  {
    var p1, p2 := stored + 2.0, incoming + 2.0;
    assert Abs(p1 - p2) == Abs(stored - incoming);
    assert Min(Abs(p1), Abs(p2)) <= 3.0;
  }

  /** The fold maps every angle in (-pi, 3 pi] into (-pi, pi]; in particular the protocol's
      range [0, 2 pi) lands in (-pi, pi]. */
  lemma FoldAngleRange(a: real)
    requires -Pi < a <= 3.0 * Pi
    ensures -Pi < FoldAngle(a) <= Pi
  {
  }

  /** Angles at or below pi are stored as given: an already normalised angle is unchanged,
      and values below -pi are not folded either. */
  lemma FoldAngleKeepsSmallAngles(a: real)
    requires a <= Pi
    ensures FoldAngle(a) == a
  {
  }

  /** Folding is applied once only: 4 pi is stored as 2 pi, outside (-pi, pi]. */
  lemma FoldAngleFoldsOnce()
    ensures FoldAngle(4.0 * Pi) == 2.0 * Pi && FoldAngle(4.0 * Pi) > Pi
  {
  }

  /** Folding a folded angle again changes nothing when the first fold already landed at or
      below pi. */
  lemma FoldAngleIdempotent(a: real)
    requires a <= 3.0 * Pi
    ensures FoldAngle(FoldAngle(a)) == FoldAngle(a)
  {
  }
}
