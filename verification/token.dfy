/** The token record: a fiducial marker with a symbol class, position, orientation and their
    rates. Its class follows the same setter pattern as the blob: x, y and angle take part in
    motion inference and the angle is folded, the other fields are plain. */
module TokenRecord {
  import opened Motion

  datatype TokenPose = TokenPose(
    classId: int, x: real, y: real, angle: real,
    vx: real, vy: real, angularVelocity: real,
    acceleration: real, angularAcceleration: real)

  type Token = Entity<TokenPose>

  const Blank: TokenPose := TokenPose(0, 0.0, 0.0, 0.0, 0.0, 0.0, 0.0, 0.0, 0.0)

  /** A new token; its state is overwritten with Pressed before it is stored. */
  function NewToken(id: int): (t: Token)
    ensures t.id == id && t.state == Released && t.pose == Blank
  {
    Entity(id, Released, Blank)
  }

  /** x, y and angle take part in motion inference; Motion.Relocate states the rule. The
      angle is folded first, as for the blob. */
  function SetX(t: Token, x: real): Token { Relocate(t, t.pose.x, x, t.pose.(x := x)) }
  function SetY(t: Token, y: real): Token { Relocate(t, t.pose.y, y, t.pose.(y := y)) }

  function SetAngle(t: Token, angle: real): Token {
    var folded := FoldAngle(angle);
    Relocate(t, t.pose.angle, folded, t.pose.(angle := folded))
  }

  function SetClassId(t: Token, k: int): Token { t.(pose := t.pose.(classId := k)) }
  function SetVX(t: Token, v: real): Token { t.(pose := t.pose.(vx := v)) }
  function SetVY(t: Token, v: real): Token { t.(pose := t.pose.(vy := v)) }
  function SetAcceleration(t: Token, v: real): Token { t.(pose := t.pose.(acceleration := v)) }
  function SetAngularVelocity(t: Token, v: real): Token { t.(pose := t.pose.(angularVelocity := v)) }
  function SetAngularAcceleration(t: Token, v: real): Token { t.(pose := t.pose.(angularAcceleration := v)) }
}
