/** The cursor record: a touch point with position, velocity and acceleration. Its class
    follows the same setter pattern as the blob: x and y take part in motion inference, the
    other fields are plain. */
module CursorRecord {
  import opened Motion

  datatype CursorPose = CursorPose(x: real, y: real, vx: real, vy: real, acceleration: real)

  type Cursor = Entity<CursorPose>

  const Blank: CursorPose := CursorPose(0.0, 0.0, 0.0, 0.0, 0.0)

  /** A new cursor; its state is overwritten with Pressed before it is stored. */
  function NewCursor(id: int): (c: Cursor)
    ensures c.id == id && c.state == Released && c.pose == Blank
  {
    Entity(id, Released, Blank)
  }

  /** x and y take part in motion inference; Motion.Relocate states the rule. */
  function SetX(c: Cursor, x: real): Cursor { Relocate(c, c.pose.x, x, c.pose.(x := x)) }
  function SetY(c: Cursor, y: real): Cursor { Relocate(c, c.pose.y, y, c.pose.(y := y)) }

  function SetVX(c: Cursor, v: real): Cursor { c.(pose := c.pose.(vx := v)) }
  function SetVY(c: Cursor, v: real): Cursor { c.(pose := c.pose.(vy := v)) }
  function SetAcceleration(c: Cursor, v: real): Cursor { c.(pose := c.pose.(acceleration := v)) }
}
