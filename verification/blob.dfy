/** The blob record: an amorphous tracked region with position, orientation, extent and
    motion attributes. */
module BlobRecord {
  import opened Motion

  datatype BlobPose = BlobPose(
    x: real, y: real, angle: real,
    width: real, height: real, area: real,
    vx: real, vy: real, vr: real,
    acceleration: real, rotationAccel: real)

  type Blob = Entity<BlobPose>

  /** The id a blob gets when none is given. */
  const DefaultId: int := -1

  /** Every attribute value-initialised to zero. */
  const Blank: BlobPose := BlobPose(0.0, 0.0, 0.0, 0.0, 0.0, 0.0, 0.0, 0.0, 0.0, 0.0, 0.0)

  /** A new blob. The state starts as Released; the tracker overwrites it with Pressed before
      the blob is stored anywhere. */
  function NewBlob(id: int := DefaultId): (b: Blob)
    ensures b.id == id && b.state == Released
    ensures b.pose.x == 0.0 && b.pose.y == 0.0 && b.pose.angle == 0.0
    ensures b.pose.width == 0.0 && b.pose.height == 0.0 && b.pose.area == 0.0
    ensures b.pose.vx == 0.0 && b.pose.vy == 0.0 && b.pose.vr == 0.0
    ensures b.pose.acceleration == 0.0 && b.pose.rotationAccel == 0.0
  {
    Entity(id, Released, Blank)
  }

  /** A blob constructed without an id carries the default id, -1. */
  lemma DefaultBlobId()
    ensures NewBlob().id == -1 && NewBlob() == NewBlob(DefaultId)
  {
  }

  function SetState(b: Blob, s: MotionState): Blob {
    b.(state := s)
  }

  function SetX(b: Blob, x: real): (r: Blob)
    ensures r.id == b.id && r.pose == b.pose.(x := x)
    ensures b.state != Stationary ==> r.state == b.state
    ensures b.state == Stationary ==> (r.state == Moved <==> !SamePlace(b.pose.x, x))
    ensures r.state == b.state || r.state == Moved
  {
    Relocate(b, b.pose.x, x, b.pose.(x := x))
  }

  function SetY(b: Blob, y: real): (r: Blob)
    ensures r.id == b.id && r.pose == b.pose.(y := y)
    ensures b.state != Stationary ==> r.state == b.state
    ensures b.state == Stationary ==> (r.state == Moved <==> !SamePlace(b.pose.y, y))
    ensures r.state == b.state || r.state == Moved
  {
    Relocate(b, b.pose.y, y, b.pose.(y := y))
  }

  /** The angle is folded first; motion is judged against the folded value. */
  function SetAngle(b: Blob, angle: real): (r: Blob)
    ensures r.id == b.id && r.pose == b.pose.(angle := FoldAngle(angle))
    ensures angle > Pi ==> r.pose.angle == angle - 2.0 * Pi
    ensures angle <= Pi ==> r.pose.angle == angle
    ensures b.state != Stationary ==> r.state == b.state
    ensures b.state == Stationary ==>
              (r.state == Moved <==> !SamePlace(b.pose.angle, FoldAngle(angle)))
    ensures r.state == b.state || r.state == Moved
  {
    var folded := FoldAngle(angle);
    Relocate(b, b.pose.angle, folded, b.pose.(angle := folded))
  }

  function SetVX(b: Blob, v: real): Blob { b.(pose := b.pose.(vx := v)) }
  function SetVY(b: Blob, v: real): Blob { b.(pose := b.pose.(vy := v)) }
  function SetAcceleration(b: Blob, v: real): Blob { b.(pose := b.pose.(acceleration := v)) }
  function SetWidth(b: Blob, v: real): Blob { b.(pose := b.pose.(width := v)) }
  function SetHeight(b: Blob, v: real): Blob { b.(pose := b.pose.(height := v)) }
  function SetArea(b: Blob, v: real): Blob { b.(pose := b.pose.(area := v)) }
  function SetVR(b: Blob, v: real): Blob { b.(pose := b.pose.(vr := v)) }
  function SetRotationAcceleration(b: Blob, v: real): Blob { b.(pose := b.pose.(rotationAccel := v)) }

  /** The laws of a plain field: the getter returns what was last set, setting the current
      value changes nothing, a second set overrides the first, and the id, the state and every
      other attribute are kept. `others` forgets the field and keeps the rest of the pose, so
      two poses it maps to the same value differ in that field at most. */
  ghost predicate PlainField(put: (Blob, real) -> Blob, get: Blob -> real,
                             others: BlobPose -> BlobPose) {
    && (forall b: Blob, v: real :: get(put(b, v)) == v)
    && (forall b: Blob :: put(b, get(b)) == b)
    && (forall b: Blob, v: real, w: real :: put(put(b, v), w) == put(b, w))
    && (forall b: Blob, v: real :: put(b, v).id == b.id && put(b, v).state == b.state)
    && (forall b: Blob, v: real :: others(put(b, v).pose) == others(b.pose))
  }

  lemma PlainSettersAreFields()
    ensures PlainField(SetVX, (b: Blob) => b.pose.vx, (p: BlobPose) => p.(vx := 0.0))
    ensures PlainField(SetVY, (b: Blob) => b.pose.vy, (p: BlobPose) => p.(vy := 0.0))
    ensures PlainField(SetAcceleration, (b: Blob) => b.pose.acceleration,
                       (p: BlobPose) => p.(acceleration := 0.0))
    ensures PlainField(SetWidth, (b: Blob) => b.pose.width, (p: BlobPose) => p.(width := 0.0))
    ensures PlainField(SetHeight, (b: Blob) => b.pose.height, (p: BlobPose) => p.(height := 0.0))
    ensures PlainField(SetArea, (b: Blob) => b.pose.area, (p: BlobPose) => p.(area := 0.0))
    ensures PlainField(SetVR, (b: Blob) => b.pose.vr, (p: BlobPose) => p.(vr := 0.0))
    ensures PlainField(SetRotationAcceleration, (b: Blob) => b.pose.rotationAccel,
                       (p: BlobPose) => p.(rotationAccel := 0.0))
  {
  }

  /** No setter changes the id the blob was constructed with. */
  lemma SettersKeepId(id: int, b: Blob, v: real, s: MotionState)
    requires b.id == id
    ensures SetX(b, v).id == id && SetY(b, v).id == id && SetAngle(b, v).id == id
    ensures SetState(b, s).id == id && SetVX(b, v).id == id && SetVY(b, v).id == id
    ensures SetAcceleration(b, v).id == id && SetWidth(b, v).id == id
    ensures SetHeight(b, v).id == id && SetArea(b, v).id == id
    ensures SetVR(b, v).id == id && SetRotationAcceleration(b, v).id == id
  {
  }

  /** Writing back the coordinate a blob already has is invisible: the state stays
      Stationary and nothing else changes. */
  lemma RewritingCoordinatesChangesNothing(b: Blob)
    requires b.pose.angle <= Pi
    ensures SetX(b, b.pose.x) == b
    ensures SetY(b, b.pose.y) == b
    ensures SetAngle(b, b.pose.angle) == b
  {
    SamePlaceReflexive(b.pose.x);
    SamePlaceReflexive(b.pose.y);
    SamePlaceReflexive(b.pose.angle);
  }

  /** Setting the same coordinate twice is the same as setting it once. */
  lemma CoordinateSettersIdempotent(b: Blob, v: real)
    ensures SetX(SetX(b, v), v) == SetX(b, v)
    ensures SetY(SetY(b, v), v) == SetY(b, v)
    ensures v <= 3.0 * Pi ==> SetAngle(SetAngle(b, v), v) == SetAngle(b, v)
  {
    SamePlaceReflexive(v);
    SamePlaceReflexive(FoldAngle(v));
  }

  /** Motion is remembered until the next alive pass: no coordinate setter takes a Moved blob
      out of Moved, and none ever produces Stationary from another state. */
  lemma MotionIsSticky(b: Blob, v: real)
    ensures b.state == Moved ==>
              SetX(b, v).state == Moved && SetY(b, v).state == Moved && SetAngle(b, v).state == Moved
    ensures SetX(b, v).state == Stationary ==> b.state == Stationary
    ensures SetY(b, v).state == Stationary ==> b.state == Stationary
    ensures SetAngle(b, v).state == Stationary ==> b.state == Stationary
  {
  }

  /** An example: moving a Stationary blob away and straight back leaves it Moved, whereas
      writing the original value directly leaves it Stationary. */
  lemma MovingBackStaysMoved()
    ensures var b := SetState(NewBlob(1), Stationary);
            SetX(SetX(b, 0.5), 0.0).state == Moved && SetX(b, 0.0).state == Stationary
  {
    var b := SetState(NewBlob(1), Stationary);
    DistantCoordinatesDiffer(0.0, 0.5);
    SamePlaceReflexive(0.0);
  }
}
