/** The 2D vector of the math library the game uses (`Vec2`), with `f32` read as `real`. */
module Vectors {
  datatype Vec2 = Vec2(x: real, y: real) {
    function Add(o: Vec2): Vec2 { Vec2(x + o.x, y + o.y) }
    function Sub(o: Vec2): Vec2 { Vec2(x - o.x, y - o.y) }
    function Scale(k: real): Vec2 { Vec2(x * k, y * k) }
    function Neg(): Vec2 { Vec2(-x, -y) }
    function Dot(o: Vec2): real { x * o.x + y * o.y }
    function LengthSquared(): real { x * x + y * y }
  }

  const Zero: Vec2 := Vec2(0.0, 0.0)
}
