/**
 The pointer-proximity highlight of the network nodes: on every pointer
 move each node within 150 pixels of the pointer is scaled up and made more
 opaque in proportion to how close it is; every other node returns to its
 default style. The distance is an input characterised by its square, since
 the `mousemove` handler computes it with `Math.sqrt`.
 */
module Proximity {
  import opened Geometry

  /** Distance below which a node is highlighted. */
  const Radius: real := 150.0

  /** A node's inline style: cleared, or a scale factor and an opacity. */
  datatype NodeStyle = Default | Highlight(scale: real, opacity: real)

  /** Linear fall-off of the highlight with distance: 1 at the node, 0 at `Radius`. */
  function Intensity(d: real): (i: real)
    ensures d == 0.0 ==> i == 1.0
    ensures d == Radius ==> i == 0.0
    ensures 0.0 <= d < Radius ==> 0.0 < i <= 1.0
  {
    1.0 - d / Radius
  }

  /** The closer the node, the stronger the highlight. */
  lemma IntensityStrictlyDecreasing(d1: real, d2: real)
    requires d1 < d2
    ensures Intensity(d1) > Intensity(d2)
  {
    assert d1 / Radius < d2 / Radius;
  }

  /** The style a node gets at distance `d` from the pointer. */
  function StyleAt(d: real): (s: NodeStyle)
    requires d >= 0.0
    ensures s.Default? <==> d >= Radius
    ensures s.Highlight? ==> 1.0 < s.scale <= 1.8 && 0.6 < s.opacity <= 1.0
    ensures d == 0.0 ==> s == Highlight(1.8, 1.0)
  {
    if d < Radius then
      var i := Intensity(d);
      Highlight(1.0 + i * 0.8, 0.6 + i * 0.4)
    else Default
  }

  /** Of two highlighted nodes, the closer one is drawn larger and more opaque. */
  lemma CloserIsBrighter(d1: real, d2: real)
    requires 0.0 <= d1 < d2 < Radius
    ensures StyleAt(d1).scale > StyleAt(d2).scale
    ensures StyleAt(d1).opacity > StyleAt(d2).opacity
  {
    IntensityStrictlyDecreasing(d1, d2);
  }

  /** The square of the Euclidean distance between two points. */
  function SquaredDistance(p: Point, q: Point): real {
    (p.x - q.x) * (p.x - q.x) + (p.y - q.y) * (p.y - q.y)
  }

  /** `d` is what `Math.sqrt` returns for the squared distance from `p` to `q`. */
  predicate IsDistance(d: real, p: Point, q: Point) {
    d >= 0.0 && d * d == SquaredDistance(p, q)
  }

  /** `c * a < c * b` for a positive `c`. */
  lemma MulLeftStrict(a: real, b: real, c: real)
    requires a < b && c > 0.0
    ensures c * a < c * b
  {
    assert c * b - c * a == c * (b - a);
  }

  /** Whether a node is highlighted can be decided without the square root. */
  lemma {:induction false} HighlightIffSquaredWithin(d: real, pointer: Point, node: Point)
    requires IsDistance(d, pointer, node)
    ensures StyleAt(d).Highlight? <==> SquaredDistance(pointer, node) < Radius * Radius
  {
    if d < Radius {
      if d > 0.0 {
        MulLeftStrict(d, Radius, d);
        MulLeftStrict(d, Radius, Radius);
      }
    } else {
      assert d * d >= Radius * d by {
        if d > Radius {
          MulLeftStrict(Radius, d, d);
        }
      }
    }
  }

  /** One pointer-move event over all nodes; `dists[i]` is node `i`'s distance from the pointer. */
  function PointerMove(pointer: Point, nodes: seq<Point>, dists: seq<real>): (styles: seq<NodeStyle>)
    requires |dists| == |nodes|
    requires forall i :: 0 <= i < |dists| ==> IsDistance(dists[i], pointer, nodes[i])
    ensures |styles| == |nodes|
    ensures forall i :: 0 <= i < |nodes| ==> dists[i] >= 0.0 && styles[i] == StyleAt(dists[i])
    ensures forall i :: 0 <= i < |nodes| ==> (styles[i].Highlight? <==> dists[i] < Radius)
    ensures forall i :: 0 <= i < |nodes| ==>
      (styles[i].Highlight? <==> SquaredDistance(pointer, nodes[i]) < Radius * Radius)
    ensures forall i :: 0 <= i < |nodes| && styles[i].Highlight? ==>
      1.0 < styles[i].scale <= 1.8 && 0.6 < styles[i].opacity <= 1.0
    ensures forall i, j :: 0 <= i < |dists| && 0 <= j < |dists| && dists[i] < dists[j] < Radius ==>
      styles[i].scale > styles[j].scale && styles[i].opacity > styles[j].opacity
  {
    assert forall i :: 0 <= i < |dists| ==> dists[i] >= 0.0 by {
      forall i | 0 <= i < |dists| ensures dists[i] >= 0.0 {
        assert IsDistance(dists[i], pointer, nodes[i]);
      }
    }
    var styles := seq(|dists|, i requires 0 <= i < |dists| => StyleAt(dists[i]));
    assert forall i :: 0 <= i < |nodes| ==>
      (styles[i].Highlight? <==> SquaredDistance(pointer, nodes[i]) < Radius * Radius) by {
      forall i | 0 <= i < |nodes|
        ensures styles[i].Highlight? <==> SquaredDistance(pointer, nodes[i]) < Radius * Radius
      {
        HighlightIffSquaredWithin(dists[i], pointer, nodes[i]);
      }
    }
    assert forall i, j :: 0 <= i < |dists| && 0 <= j < |dists| && dists[i] < dists[j] < Radius ==>
      styles[i].scale > styles[j].scale && styles[i].opacity > styles[j].opacity by {
      forall i, j | 0 <= i < |dists| && 0 <= j < |dists| && dists[i] < dists[j] < Radius
        ensures styles[i].scale > styles[j].scale && styles[i].opacity > styles[j].opacity
      {
        CloserIsBrighter(dists[i], dists[j]);
      }
    }
    styles
  }
}
