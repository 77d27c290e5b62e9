/**
 * Models/Water.swift: the constants, states and directions of the
 * water-drop snake game. Coordinates are `real`; times are counted in
 * ticks of the game timer, one sixtieth of a second each.
 */
module WaterModel {
  /** `gameDuration`, 30 s, in sixtieths of a second. */
  const GameDuration := 1800
  const RequiredDrops := 10
  const CountdownDuration := 3
  /** The 0.1 s below which the game timer ends the game, in sixtieths. */
  const TimeThreshold := 6
  const SnakeSize: real := 27.0
  const DropSize: real := 27.0
  const MoveSpeed: real := 3.5
  const StatusBarHeight: real := 50.0

  /** `WaterGameState`: unlike the other games, there is no paused state. */
  datatype GameState = Initial | Countdown(n: int) | Playing | Finished(success: bool)

  /** `Direction`. */
  datatype Direction = Up | Down | Left | Right

  datatype Point = Point(x: real, y: real)

  function Add(p: Point, q: Point): Point
  {
    Point(p.x + q.x, p.y + q.y)
  }

  function Negate(p: Point): Point
  {
    Point(-p.x, -p.y)
  }

  function Opposite(d: Direction): Direction
  {
    match d
    case Up => Down
    case Down => Up
    case Left => Right
    case Right => Left
  }

  /**
   * `movement`: one step of `moveSpeed` along one axis, the other component
   * zero; up is towards smaller y, as on screen.
   */
  function Movement(d: Direction): (m: Point)
    ensures (m.x == 0.0 && (m.y == MoveSpeed || m.y == -MoveSpeed))
         || (m.y == 0.0 && (m.x == MoveSpeed || m.x == -MoveSpeed))
    ensures d == Up ==> m.x == 0.0 && m.y < 0.0
    ensures d == Down ==> m.x == 0.0 && m.y > 0.0
    ensures d == Left ==> m.x < 0.0 && m.y == 0.0
    ensures d == Right ==> m.x > 0.0 && m.y == 0.0
  {
    match d
    case Up => Point(0.0, -MoveSpeed)
    case Down => Point(0.0, MoveSpeed)
    case Left => Point(-MoveSpeed, 0.0)
    case Right => Point(MoveSpeed, 0.0)
  }

  /** Opposite directions move by opposite vectors, so a step there and back returns to the start. */
  lemma MovementOpposite(d: Direction, p: Point)
    ensures Opposite(Opposite(d)) == d && Opposite(d) != d
    ensures Movement(Opposite(d)) == Negate(Movement(d))
    ensures Add(Add(p, Movement(d)), Movement(Opposite(d))) == p
  {
  }
}
