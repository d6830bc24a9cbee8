/**
 The neural-network background: nodes placed at random in the viewport,
 connections between random pairs of distinct nodes, and data particles
 that travel between random nodes and advance on every tick of the
 position timer. Every `Math.random()` result is an explicit draw in [0, 1).
 */
module Network {
  import opened Geometry
  import opened DataParticle

  /** Population sizes fixed by the animation's constructor. */
  const NodeCount: nat := 20
  const ConnectionCount: nat := 25
  const DataParticleCount: nat := 12

  /** Two successive draws: the x and y of a node, or the two ends of a pair. */
  datatype Draws = Draws(first: real, second: real)

  predicate IsDraws(d: Draws) {
    IsDraw(d.first) && IsDraw(d.second)
  }

  predicate AllDraws(ds: seq<Draws>) {
    forall i :: 0 <= i < |ds| ==> IsDraws(ds[i])
  }

  /** `p` lies inside a viewport of the given size. */
  predicate InViewport(p: Point, width: real, height: real) {
    0.0 <= p.x <= width && 0.0 <= p.y <= height
  }

  /** The first loop of `createNeuralNetwork`: one node per pair of draws. */
  function PlaceNodes(ds: seq<Draws>, width: real, height: real): (nodes: seq<Point>)
    requires AllDraws(ds) && width >= 0.0 && height >= 0.0
    ensures |nodes| == |ds|
    ensures forall i :: 0 <= i < |nodes| ==> InViewport(nodes[i], width, height)
    ensures forall i :: 0 <= i < |nodes| && width > 0.0 ==> nodes[i].x < width
    ensures forall i :: 0 <= i < |nodes| && height > 0.0 ==> nodes[i].y < height
  {
    seq(|ds|, i requires 0 <= i < |ds| =>
      Point(Spread(ds[i].first, width), Spread(ds[i].second, height)))
  }

  /** The two node indices a pair of draws selects. */
  function Picks(nodes: seq<Point>, d: Draws): (ij: (nat, nat))
    requires |nodes| > 0 && IsDraws(d)
    ensures ij.0 < |nodes| && ij.1 < |nodes|
  {
    (PickIndex(d.first, |nodes|), PickIndex(d.second, |nodes|))
  }

  /** A connection segment: the indices of its nodes and their positions captured by value. */
  datatype Connection = Connection(from: nat, to: nat, a: Point, b: Point)

  /** `c` joins two different nodes and holds their positions. */
  predicate Joins(nodes: seq<Point>, c: Connection) {
    && c.from < |nodes| && c.to < |nodes|
    && c.from != c.to
    && c.a == nodes[c.from] && c.b == nodes[c.to]
  }

  /** The connection a pair of draws yields, if its two picks differ. */
  function Candidate(nodes: seq<Point>, d: Draws): (cs: seq<Connection>)
    requires |nodes| > 0 && IsDraws(d)
    ensures |cs| <= 1
    ensures |cs| == 1 <==> PicksDiffer(nodes, d)
    ensures forall c :: c in cs ==> Joins(nodes, c)
  {
    var (i, j) := Picks(nodes, d);
    if i != j then [Connection(i, j, nodes[i], nodes[j])] else []
  }

  /** The second loop of `createNeuralNetwork`: the connections the draws yield,
      in order; there is one for every pair of draws that picks two different nodes. */
  function Connections(nodes: seq<Point>, ds: seq<Draws>): (cs: seq<Connection>)
    requires |nodes| > 0 && AllDraws(ds)
    ensures |cs| == |Differing(nodes, ds)|
    ensures |cs| <= |ds|
    ensures forall c :: c in cs ==> Joins(nodes, c)
    ensures |nodes| == 1 ==> cs == []
    decreases |ds|
  {
    if |ds| == 0 then []
    else
      DifferingSplit(nodes, ds);
      Connections(nodes, ds[..|ds| - 1]) + Candidate(nodes, ds[|ds| - 1])
  }

  /** The positions of the pairs of draws that pick two different nodes. */
  function Differing(nodes: seq<Point>, ds: seq<Draws>): set<nat>
    requires |nodes| > 0 && AllDraws(ds)
  {
    set n | 0 <= n < |ds| && PicksDiffer(nodes, ds[n])
  }

  /** Removing the last pair of draws removes at most its own position. */
  lemma DifferingSplit(nodes: seq<Point>, ds: seq<Draws>)
    requires |nodes| > 0 && AllDraws(ds) && |ds| > 0
    ensures |ds| - 1 !in Differing(nodes, ds[..|ds| - 1])
    ensures Differing(nodes, ds) ==
      Differing(nodes, ds[..|ds| - 1]) + (if PicksDiffer(nodes, ds[|ds| - 1]) then {|ds| - 1} else {})
  {
    var init := ds[..|ds| - 1];
    forall n | 0 <= n < |init|
      ensures init[n] == ds[n]
    {
    }
  }

  /** Every pair of draws whose picks differ contributes its own connection,
      joining exactly the two nodes it picked. */
  lemma {:induction false} KeptDrawConnects(nodes: seq<Point>, ds: seq<Draws>, n: nat)
    requires |nodes| > 0 && AllDraws(ds)
    requires n < |ds| && PicksDiffer(nodes, ds[n])
    ensures Candidate(nodes, ds[n])[0] in Connections(nodes, ds)
    ensures Candidate(nodes, ds[n])[0] ==
      Connection(Picks(nodes, ds[n]).0, Picks(nodes, ds[n]).1, nodes[Picks(nodes, ds[n]).0], nodes[Picks(nodes, ds[n]).1])
    decreases |ds|
  {
    var init := ds[..|ds| - 1];
    if n < |ds| - 1 {
      assert init[n] == ds[n];
      KeptDrawConnects(nodes, init, n);
    }
  }

  /** The loop itself, drawing one pair per iteration. */
  method CreateConnections(nodes: seq<Point>, ds: seq<Draws>) returns (cs: seq<Connection>)
    requires |nodes| > 0 && AllDraws(ds)
    ensures cs == Connections(nodes, ds)
    ensures |cs| <= |ds|
    ensures forall c :: c in cs ==> Joins(nodes, c)
  {
    cs := [];
    var n := 0;
    while n < |ds|
      invariant 0 <= n <= |ds|
      invariant cs == Connections(nodes, ds[..n])
    {
      assert ds[..n + 1][..n] == ds[..n];
      cs := cs + Candidate(nodes, ds[n]);
      n := n + 1;
    }
    assert ds[..n] == ds;
  }

  /** The two picks of a pair of draws are different nodes. */
  predicate PicksDiffer(nodes: seq<Point>, d: Draws)
    requires |nodes| > 0 && IsDraws(d)
  {
    Picks(nodes, d).0 != Picks(nodes, d).1
  }

  /** Every pair of draws yields a connection exactly when none of them picks
      the same node twice; nodes that merely share a position still connect. */
  lemma {:induction false} AllDrawsConnectIff(nodes: seq<Point>, ds: seq<Draws>)
    requires |nodes| > 0 && AllDraws(ds)
    ensures |Connections(nodes, ds)| == |ds| <==>
      forall n :: 0 <= n < |ds| ==> PicksDiffer(nodes, ds[n])
    decreases |ds|
  {
    if |ds| > 0 {
      var init, last := ds[..|ds| - 1], ds[|ds| - 1];
      AllDrawsConnectIff(nodes, init);
      var before := Connections(nodes, init);
      assert |Connections(nodes, ds)| == |before| + |Candidate(nodes, last)|;
      assert |before| <= |init|;
      if forall n :: 0 <= n < |ds| ==> PicksDiffer(nodes, ds[n]) {
        assert forall n :: 0 <= n < |init| ==> PicksDiffer(nodes, init[n]) by {
          forall n | 0 <= n < |init| ensures PicksDiffer(nodes, init[n]) {
            assert init[n] == ds[n];
          }
        }
        assert PicksDiffer(nodes, ds[|ds| - 1]);
      } else {
        var n :| 0 <= n < |ds| && !PicksDiffer(nodes, ds[n]);
        if n < |init| {
          assert init[n] == ds[n];
        }
      }
    }
  }

  /** The data particles of `createNeuralNetwork`, one per pair of draws. */
  function SpawnParticles(nodes: seq<Point>, ds: seq<Draws>): (ps: seq<Particle>)
    requires |nodes| > 0 && AllDraws(ds)
    ensures |ps| == |ds|
    ensures forall i :: 0 <= i < |ps| ==> ps[i].progress == 0.0 && OnNodes(nodes, ps[i])
  {
    seq(|ds|, i requires 0 <= i < |ds| => Spawn(Leg(nodes, ds[i]).0, Leg(nodes, ds[i]).1))
  }

  /** The start and end node positions a pair of draws selects. */
  function Leg(nodes: seq<Point>, d: Draws): (leg: (Point, Point))
    requires |nodes| > 0 && IsDraws(d)
    ensures leg.0 in nodes && leg.1 in nodes
  {
    var (i, j) := Picks(nodes, d);
    (nodes[i], nodes[j])
  }

  /** Both endpoints of the particle are node positions. */
  predicate OnNodes(nodes: seq<Point>, p: Particle) {
    p.start in nodes && p.end in nodes
  }

  /** One run of the 30 ms position timer over all particles; `ds[i]` are the
      draws particle `i` takes if its traversal completes on this tick. */
  method TickAll(nodes: seq<Point>, ps: seq<Particle>, ds: seq<Draws>)
    returns (qs: seq<Particle>, shown: seq<Point>)
    requires |nodes| > 0 && AllDraws(ds) && |ds| == |ps|
    ensures |qs| == |ps| && |shown| == |ps|
    ensures forall i :: 0 <= i < |ps| ==> qs[i] == Tick(ps[i], Leg(nodes, ds[i]))
    ensures forall i :: 0 <= i < |ps| ==> shown[i] == Position(qs[i])
    ensures forall i :: 0 <= i < |ps| && 0.0 <= ps[i].progress ==> Valid(qs[i])
    ensures forall i :: 0 <= i < |ps| && OnNodes(nodes, ps[i]) ==> OnNodes(nodes, qs[i])
  {
    qs := [];
    shown := [];
    var n := 0;
    while n < |ps|
      invariant 0 <= n <= |ps|
      invariant |qs| == n && |shown| == n
      invariant forall i :: 0 <= i < n ==> qs[i] == Tick(ps[i], Leg(nodes, ds[i]))
      invariant forall i :: 0 <= i < n ==> shown[i] == Position(qs[i])
    {
      var q := Tick(ps[n], Leg(nodes, ds[n]));
      qs := qs + [q];
      shown := shown + [Position(q)];
      n := n + 1;
    }
  }

  /** The whole animated population. */
  datatype Graph = Graph(nodes: seq<Point>, connections: seq<Connection>, particles: seq<Particle>)

  /** What holds of the population between ticks. */
  predicate WellFormed(g: Graph) {
    && |g.nodes| > 0
    && (forall c :: c in g.connections ==> Joins(g.nodes, c))
    && (forall i :: 0 <= i < |g.particles| ==> Valid(g.particles[i]) && OnNodes(g.nodes, g.particles[i]))
  }

  /** All draws one construction pass takes. */
  datatype BuildDraws = BuildDraws(nodes: seq<Draws>, connections: seq<Draws>, particles: seq<Draws>)

  predicate IsBuildDraws(b: BuildDraws) {
    && |b.nodes| == NodeCount && AllDraws(b.nodes)
    && |b.connections| == ConnectionCount && AllDraws(b.connections)
    && |b.particles| == DataParticleCount && AllDraws(b.particles)
  }

  /** `createNeuralNetwork` against a viewport of the given size; a resize runs it again. */
  function Build(width: real, height: real, b: BuildDraws): (g: Graph)
    requires width >= 0.0 && height >= 0.0 && IsBuildDraws(b)
    ensures WellFormed(g)
    ensures |g.nodes| == NodeCount && |g.particles| == DataParticleCount
    ensures |g.connections| <= ConnectionCount
    ensures forall i :: 0 <= i < |g.nodes| ==> InViewport(g.nodes[i], width, height)
    ensures forall i :: 0 <= i < |g.particles| ==> Position(g.particles[i]) == g.particles[i].start
  {
    var nodes := PlaceNodes(b.nodes, width, height);
    Graph(nodes, Connections(nodes, b.connections), SpawnParticles(nodes, b.particles))
  }

  /** A tick of the position timer over the population, with the displayed positions. */
  method Advance(g: Graph, ds: seq<Draws>) returns (h: Graph, shown: seq<Point>)
    requires WellFormed(g) && AllDraws(ds) && |ds| == |g.particles|
    ensures WellFormed(h)
    ensures h.nodes == g.nodes && h.connections == g.connections
    ensures |h.particles| == |g.particles| && |shown| == |g.particles|
    ensures forall i :: 0 <= i < |shown| ==> InBox(shown[i], h.particles[i].start, h.particles[i].end)
    ensures forall i :: 0 <= i < |g.particles| ==>
      h.particles[i] == Tick(g.particles[i], Leg(g.nodes, ds[i])) && shown[i] == Position(h.particles[i])
  {
    var qs;
    qs, shown := TickAll(g.nodes, g.particles, ds);
    h := g.(particles := qs);
  }
}
