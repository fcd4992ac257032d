/** Two-dimensional points and sizes of the drawing surface, with the
    component-wise operators the app adds to them (CGPoint + CGPoint,
    CGPoint + CGSize, CGPoint - CGPoint, CGSize / scalar, CGSize.center).
    Coordinates are exact reals: the app only adds, subtracts, multiplies by
    constants and halves, so floating-point rounding is abstracted away. */
module Geometry {

  /** A location, or a vector between two locations (CGPoint). */
  datatype Point = Point(x: real, y: real)

  /** An extent, or a gesture's translation (CGSize). */
  datatype Size = Size(width: real, height: real)

  /** CGPoint.zero */
  const Zero: Point := Point(0.0, 0.0)

  /** `left + right` on two points. */
  function Add(left: Point, right: Point): Point
  {
    Point(left.x + right.x, left.y + right.y)
  }

  /** `left + right` with a size as the right operand: moves a point by a translation. */
  function AddSize(left: Point, right: Size): Point
  {
    Point(left.x + right.width, left.y + right.height)
  }

  /** `left - right` on two points: the vector that leads from `right` to `left`. */
  function Sub(left: Point, right: Point): (r: Point)
    ensures Add(r, right) == left
  {
    Point(left.x - right.x, left.y - right.y)
  }

  /** `left / right` on a size: scales both dimensions down by `right`. */
  function Divide(left: Size, right: real): (r: Size)
    requires right != 0.0
    ensures r.width * right == left.width && r.height * right == left.height
  {
    Size(left.width / right, left.height / right)
  }

  /** `size.center`: the middle of a rectangle of this size placed at the origin. */
  function Center(size: Size): (c: Point)
    ensures Add(c, c) == Point(size.width, size.height)
  {
    Point(size.width / 2.0, size.height / 2.0)
  }

  /** Subtracting a point and adding it back gives the original point. */
  lemma SubAddCancel(p: Point, q: Point)
    ensures Add(Sub(p, q), q) == p
  {
  }

  /** Adding the vector from `p` to `q` onto `p` lands exactly on `q`. */
  lemma AddSubCancel(p: Point, q: Point)
    ensures Add(p, Sub(q, p)) == q
  {
  }

  /** The difference of two points is the zero vector exactly when they are equal. */
  lemma SubZeroIff(p: Point, q: Point)
    ensures Sub(p, q) == Zero <==> p == q
  {
    if Sub(p, q) == Zero {
      assert p.x == q.x && p.y == q.y;
    }
  }

  /** Point addition is commutative and associative, and Zero is its identity. */
  lemma AddLaws(p: Point, q: Point, r: Point)
    ensures Add(p, q) == Add(q, p)
    ensures Add(Add(p, q), r) == Add(p, Add(q, r))
    ensures Add(p, Zero) == p
  {
  }

  /** Moving by a translation is the same as adding the translation read as a vector,
      so the mixed `+` agrees with the point `+`. */
  lemma AddSizeIsAdd(p: Point, t: Size)
    ensures AddSize(p, t) == Add(p, Point(t.width, t.height))
  {
  }

  /** Moving by one translation and then another is moving by their sum. */
  lemma AddSizeCompose(p: Point, s: Size, t: Size)
    ensures AddSize(AddSize(p, s), t) == AddSize(p, Size(s.width + t.width, s.height + t.height))
  {
  }

  /** The centre of a size is that size divided by two, read as a point. */
  lemma CenterIsHalf(size: Size)
    ensures Center(size) == Point(Divide(size, 2.0).width, Divide(size, 2.0).height)
  {
  }
}
