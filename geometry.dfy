/** The visibility oracle of the roadmap: points, axis-aligned rectangular
    obstacles, the clearance test and the segment/rectangle crossing test.
    Coordinates are integers, so every test here is exact. */
module Geometry {

  /** A point, or a difference of two points. Equality is by coordinates. */
  datatype Vector = Vector(x: int, y: int)

  /** An axis-aligned rectangular obstacle. Nothing checks xMin <= xMax. */
  datatype Rect = Rect(xMin: int, xMax: int, yMin: int, yMax: int)

  /** The obstacle covers pt; its boundary counts as covered. */
  predicate Covers(r: Rect, pt: Vector) {
    r.xMin <= pt.x <= r.xMax && r.yMin <= pt.y <= r.yMax
  }

  /** Scan of the obstacle list that stops at the first obstacle covering pt. */
  function Clear(rects: seq<Rect>, pt: Vector): (clear: bool)
    ensures clear <==> forall i :: 0 <= i < |rects| ==> !Covers(rects[i], pt)
  {
    if rects == [] then true
    else if Covers(rects[0], pt) then false
    else Clear(rects[1..], pt)
  }

  function Minus(a: Vector, b: Vector): Vector {
    Vector(a.x - b.x, a.y - b.y)
  }

  function CrossProd(u: Vector, v: Vector): int {
    u.x * v.y - u.y * v.x
  }

  /** The sign taken with copysign(1, c) of an integer c: zero counts as positive. */
  function Sign(c: int): (s: int)
    ensures s == 1 || s == -1
    ensures s == -1 <==> c < 0
  {
    if c < 0 then -1 else 1
  }

  /** The ray from origin along dir puts a and b on different sides: exactly
      one of the two cross products is negative, a point on the line counting
      as being on the positive side. */
  predicate Separates(origin: Vector, dir: Vector, a: Vector, b: Vector): (sep: bool)
    ensures sep <==> (CrossProd(dir, Minus(a, origin)) < 0 <==> 0 <= CrossProd(dir, Minus(b, origin)))
  {
    Sign(CrossProd(dir, Minus(a, origin))) != Sign(CrossProd(dir, Minus(b, origin)))
  }

  /** The path src -> dest crosses the edge e0 -> e1: the path-ray separates the
      edge's endpoints and the edge-ray separates the path's endpoints. */
  predicate EdgeCrossed(src: Vector, dest: Vector, e0: Vector, e1: Vector): (crossed: bool)
    ensures crossed <==>
      && (CrossProd(Minus(dest, src), Minus(e0, src)) < 0 <==> 0 <= CrossProd(Minus(dest, src), Minus(e1, src)))
      && (CrossProd(Minus(e1, e0), Minus(src, e0)) < 0 <==> 0 <= CrossProd(Minus(e1, e0), Minus(dest, e0)))
  {
    Separates(src, Minus(dest, src), e0, e1) && Separates(e0, Minus(e1, e0), src, dest)
  }

  /** The four edges of an obstacle, in the order they are tested. */
  function Edges(r: Rect): (es: seq<(Vector, Vector)>)
    ensures |es| == 4
  {
    [(Vector(r.xMin, r.yMin), Vector(r.xMin, r.yMax)),
     (Vector(r.xMin, r.yMin), Vector(r.xMax, r.yMin)),
     (Vector(r.xMin, r.yMax), Vector(r.xMax, r.yMax)),
     (Vector(r.xMax, r.yMin), Vector(r.xMax, r.yMax))]
  }

  /** Scan of a list of edges that stops at the first one the path crosses. */
  function AnyEdgeCrossed(edges: seq<(Vector, Vector)>, src: Vector, dest: Vector): (crossed: bool)
    ensures crossed <==> exists i :: 0 <= i < |edges| && EdgeCrossed(src, dest, edges[i].0, edges[i].1)
  {
    if edges == [] then false
    else if EdgeCrossed(src, dest, edges[0].0, edges[0].1) then true
    else AnyEdgeCrossed(edges[1..], src, dest)
  }

  function Intersects(r: Rect, src: Vector, dest: Vector): (crossed: bool)
    ensures crossed <==> exists i :: 0 <= i < 4 && EdgeCrossed(src, dest, Edges(r)[i].0, Edges(r)[i].1)
  {
    AnyEdgeCrossed(Edges(r), src, dest)
  }

  /** Scan of the obstacle list that stops at the first obstacle the path crosses. */
  function AnyIntersected(rects: seq<Rect>, src: Vector, dest: Vector): (crossed: bool)
    ensures crossed <==> exists i :: 0 <= i < |rects| && Intersects(rects[i], src, dest)
  {
    if rects == [] then false
    else if Intersects(rects[0], src, dest) then true
    else AnyIntersected(rects[1..], src, dest)
  }

  function Link(rects: seq<Rect>, src: Vector, dest: Vector): (linked: bool)
    ensures linked <==>
      && Clear(rects, src) && Clear(rects, dest)
      && forall i :: 0 <= i < |rects| ==> !Intersects(rects[i], src, dest)
  {
    if !Clear(rects, src) || !Clear(rects, dest) then false
    else !AnyIntersected(rects, src, dest)
  }

  // ---------------------------------------------------------------------
  // Properties of the oracle

  lemma CrossProdAntisymmetric(u: Vector, v: Vector)
    ensures CrossProd(u, v) == -CrossProd(v, u)
    ensures CrossProd(v, v) == 0
  {
  }

  /** Without obstacles every point is clear and every pair is linked. */
  lemma NoObstacles(a: Vector, b: Vector)
    ensures Clear([], a)
    ensures Link([], a, b)
  {
  }

  /** A zero-length path has all cross products zero, so it crosses nothing. */
  lemma {:induction false} LinkSelf(rects: seq<Rect>, p: Vector)
    ensures Link(rects, p, p) == Clear(rects, p)
  {
    forall i | 0 <= i < |rects|
      ensures !Intersects(rects[i], p, p)
    {
      forall k | 0 <= k < 4
        ensures !EdgeCrossed(p, p, Edges(rects[i])[k].0, Edges(rects[i])[k].1)
      {
        var e := Edges(rects[i])[k];
        assert CrossProd(Minus(p, p), Minus(e.0, p)) == 0;
        assert CrossProd(Minus(p, p), Minus(e.1, p)) == 0;
      }
    }
  }

  /** Reversing a path negates the path-ray cross product of every point. */
  lemma ReversedPathCross(a: Vector, b: Vector, c: Vector)
    ensures CrossProd(Minus(a, b), Minus(c, b)) == -CrossProd(Minus(b, a), Minus(c, a))
  {
    var dx, dy := b.x - a.x, b.y - a.y;
    calc {
      CrossProd(Minus(a, b), Minus(c, b));
      (-dx) * (c.y - a.y - dy) - (-dy) * (c.x - a.x - dx);
      -(dx * (c.y - a.y) - dy * (c.x - a.x)) + (dx * dy - dy * dx);
      -CrossProd(Minus(b, a), Minus(c, a));
    }
  }

  /** No corner of any obstacle lies on the line through a and b. */
  predicate OffCorners(rects: seq<Rect>, a: Vector, b: Vector) {
    forall i, k :: 0 <= i < |rects| && 0 <= k < 4 ==>
      && CrossProd(Minus(b, a), Minus(Edges(rects[i])[k].0, a)) != 0
      && CrossProd(Minus(b, a), Minus(Edges(rects[i])[k].1, a)) != 0
  }

  /** When no obstacle corner is collinear with the path, the sign convention
      never decides anything and visibility is symmetric. */
  lemma LinkSymmetricOffCorners(rects: seq<Rect>, a: Vector, b: Vector)
    requires OffCorners(rects, a, b)
    ensures Link(rects, a, b) == Link(rects, b, a)
  {
    forall i, k | 0 <= i < |rects| && 0 <= k < 4
      ensures EdgeCrossed(a, b, Edges(rects[i])[k].0, Edges(rects[i])[k].1)
          == EdgeCrossed(b, a, Edges(rects[i])[k].0, Edges(rects[i])[k].1)
    {
      var e := Edges(rects[i])[k];
      ReversedPathCross(a, b, e.0);
      ReversedPathCross(a, b, e.1);
    }
    forall i | 0 <= i < |rects|
      ensures Intersects(rects[i], a, b) == Intersects(rects[i], b, a)
    {
    }
  }

  /** At a touching corner the convention that zero is positive makes visibility
      depend on the direction of travel: the path (-5,5) -> (5,-5) grazes the
      corner (0,0) of the square and is accepted, the reverse path is refused. */
  lemma LinkAsymmetricAtCorner()
    ensures Link([Rect(0, 10, 0, 10)], Vector(-5, 5), Vector(5, -5))
    ensures !Link([Rect(0, 10, 0, 10)], Vector(5, -5), Vector(-5, 5))
  {
    var r := Rect(0, 10, 0, 10);
    var a, b := Vector(-5, 5), Vector(5, -5);
    GrazingPathMissesSquare();
    assert Clear([r], a) && Clear([r], b);
    assert !AnyIntersected([r], a, b);
    ReversedGrazingPathCrossesSquare();
    assert AnyIntersected([r], b, a);
  }

  lemma GrazingPathMissesSquare()
    ensures !Intersects(Rect(0, 10, 0, 10), Vector(-5, 5), Vector(5, -5))
  {
    var a, dir := Vector(-5, 5), Vector(10, -10);
    // The corner (0,0) gives a zero cross product, counted as positive like
    // the other end of each edge through it, so no edge is separated.
    assert CrossProd(dir, Minus(Vector(0, 0), a)) == 0;
    assert CrossProd(dir, Minus(Vector(0, 10), a)) == 100;
    assert CrossProd(dir, Minus(Vector(10, 0), a)) == 100;
    assert CrossProd(dir, Minus(Vector(10, 10), a)) == 200;
  }

  lemma ReversedGrazingPathCrossesSquare()
    ensures Intersects(Rect(0, 10, 0, 10), Vector(5, -5), Vector(-5, 5))
  {
    var a, b := Vector(-5, 5), Vector(5, -5);
    ReversedPathSeparatesLeftEdge();
    LeftEdgeSeparatesPath();
    assert EdgeCrossed(b, a, Vector(0, 0), Vector(0, 10));
    assert Edges(Rect(0, 10, 0, 10))[0] == (Vector(0, 0), Vector(0, 10));
  }

  /** Backwards the zero of the corner (0,0) sits against a negative product. */
  lemma ReversedPathSeparatesLeftEdge()
    ensures Separates(Vector(5, -5), Minus(Vector(-5, 5), Vector(5, -5)), Vector(0, 0), Vector(0, 10))
  {
  }

  lemma LeftEdgeSeparatesPath()
    ensures Separates(Vector(0, 0), Minus(Vector(0, 10), Vector(0, 0)), Vector(5, -5), Vector(-5, 5))
  {
    var dir := Minus(Vector(0, 10), Vector(0, 0));
    assert dir == Vector(0, 10);
    assert CrossProd(dir, Minus(Vector(5, -5), Vector(0, 0))) == -50;
    assert CrossProd(dir, Minus(Vector(-5, 5), Vector(0, 0))) == 50;
  }

  /** A path straight through the square crosses its left edge. */
  lemma StraightThroughSquare()
    ensures Intersects(Rect(0, 10, 0, 10), Vector(-5, 5), Vector(15, 5))
    ensures !Link([Rect(0, 10, 0, 10)], Vector(-5, 5), Vector(15, 5))
  {
    var r := Rect(0, 10, 0, 10);
    assert EdgeCrossed(Vector(-5, 5), Vector(15, 5), Edges(r)[0].0, Edges(r)[0].1);
  }

  /** A point on an obstacle's boundary is not clear. */
  lemma BoundaryNotClear()
    ensures !Clear([Rect(0, 10, 0, 10)], Vector(10, 3))
    ensures Clear([Rect(0, 10, 0, 10)], Vector(11, 3))
  {
  }
}
