/** The program examples/good/struct.rs: a two-field record `Rectangle`,
    its constructor `rectangle_new`, its observer `rectangle_area`, and
    `main`. Struct values are copied on assignment, argument passing and
    return, so an immutable datatype models them exactly. */
module Rectangles {
  import opened Int64

  datatype Rectangle = Rectangle(x: I64, y: I64)

  /** `rectangle_new(x, y)`. Its local `r` is declared without an
      initialiser; whatever that local holds is `uninit`, and both fields
      are overwritten before `r` is returned. */
  function RectangleNew(x: I64, y: I64, uninit: Rectangle): (r: Rectangle)
    ensures r.x == x && r.y == y
  {
    uninit.(x := x).(y := y)
  }

  /** The constructor's result does not depend on the uninitialised local. */
  lemma NewIgnoresUninitialised(x: I64, y: I64, u1: Rectangle, u2: Rectangle)
    ensures RectangleNew(x, y, u1) == RectangleNew(x, y, u2)
    ensures RectangleNew(x, y, u1) == Rectangle(x, y)
  {
  }

  /** `rectangle_area(r)`: the product of the two fields, in i64. */
  function RectangleArea(r: Rectangle): (area: I64)
    ensures InRange(r.x * r.y) ==> area == r.x * r.y
    ensures (area - r.x * r.y) % MODULUS == 0
  {
    Wrap(r.x * r.y)
  }

  /** Round trip: the area of a freshly built rectangle is the product of
      the two arguments whenever it fits in an i64. */
  lemma AreaOfNew(x: I64, y: I64, uninit: Rectangle)
    requires InRange(x * y)
    ensures RectangleArea(RectangleNew(x, y, uninit)) == x * y
  {
  }

  /** `main`: builds `rectangle_new(10, 20)`, passes it by value to
      `rectangle_area` and prints the result. Returns the printed value and
      the caller's `r` after the call, which the call leaves as it was. */
  method RectangleProgramMain(uninit: Rectangle) returns (printed: I64, r: Rectangle)
    ensures printed == 200
    ensures r == Rectangle(10, 20)
  {
    r := RectangleNew(10, 20, uninit);
    printed := RectangleArea(r);
  }
}
