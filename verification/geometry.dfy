/**
 Surface geometry shared by the network animation: points, linear
 interpolation between two points, and how one draw of the host's uniform
 random source in [0, 1) becomes a coordinate or an index.
 */
module Geometry {

  /** A position on the rendering surface, in pixels. */
  datatype Point = Point(x: real, y: real)

  /** A value the host's uniform random source can return. */
  predicate IsDraw(u: real) {
    0.0 <= u < 1.0
  }

  function Min(a: real, b: real): real {
    if a <= b then a else b
  }

  function Max(a: real, b: real): real {
    if a <= b then b else a
  }

  /** `Math.floor(u * n)`: the position a draw selects in a list of `n` elements. */
  function PickIndex(u: real, n: nat): (i: nat)
    requires IsDraw(u) && n > 0
    ensures i < n
  {
    var scaled := u * n as real;
    MulStrictlyBelow(u, n as real);
    scaled.Floor
  }

  /** Every element can be drawn: the draw `i / n` selects element `i`. */
  lemma PickIndexReachesEvery(i: nat, n: nat)
    requires i < n
    ensures IsDraw(i as real / n as real)
    ensures PickIndex(i as real / n as real, n) == i
  {
    var u := i as real / n as real;
    assert u * n as real == i as real;
  }

  /** `u * extent`: a coordinate drawn uniformly along an axis of the given extent. */
  function Spread(u: real, extent: real): (c: real)
    requires IsDraw(u) && extent >= 0.0
    ensures 0.0 <= c <= extent
    ensures extent > 0.0 ==> c < extent
  {
    MulStrictlyBelow(u, extent);
    u * extent
  }

  /** The value a fraction `t` of the way from `a` to `b`. */
  function Lerp(a: real, b: real, t: real): (r: real)
    ensures t == 0.0 ==> r == a
    ensures t == 1.0 ==> r == b
    ensures 0.0 <= t <= 1.0 ==> Min(a, b) <= r <= Max(a, b)
  {
    LerpBetween(a, b, t);
    a + (b - a) * t
  }

  /** The interpolated value lies between the two ends, whichever is larger. */
  lemma LerpBetween(a: real, b: real, t: real)
    ensures 0.0 <= t <= 1.0 ==> Min(a, b) <= a + (b - a) * t <= Max(a, b)
  {
    if 0.0 <= t <= 1.0 {
      if a <= b {
        assert a + (b - a) * t - a == (b - a) * t;
        assert b - (a + (b - a) * t) == (b - a) * (1.0 - t);
      } else {
        assert a + (b - a) * t - b == (a - b) * (1.0 - t);
        assert a - (a + (b - a) * t) == (a - b) * t;
      }
    }
  }

  /** Scaling by a draw in [0, 1) stays within [0, c], strictly below a positive c. */
  lemma MulStrictlyBelow(u: real, c: real)
    requires 0.0 <= u < 1.0 && c >= 0.0
    ensures 0.0 <= u * c <= c
    ensures c > 0.0 ==> u * c < c
  {
    assert c - u * c == (1.0 - u) * c;
  }

  /** The point a fraction `t` of the way from `s` to `e`, each axis on its own. */
  function Interpolate(s: Point, e: Point, t: real): (p: Point)
    ensures p.x == Lerp(s.x, e.x, t) && p.y == Lerp(s.y, e.y, t)
    ensures t == 0.0 ==> p == s
    ensures t == 1.0 ==> p == e
    ensures 0.0 <= t <= 1.0 ==> InBox(p, s, e)
  {
    Point(Lerp(s.x, e.x, t), Lerp(s.y, e.y, t))
  }

  /** `p` lies in the axis-aligned box spanned by `s` and `e`. */
  predicate InBox(p: Point, s: Point, e: Point) {
    && Min(s.x, e.x) <= p.x <= Max(s.x, e.x)
    && Min(s.y, e.y) <= p.y <= Max(s.y, e.y)
  }
}
