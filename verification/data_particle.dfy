/**
 A data particle of the network animation: it travels from a start node to
 an end node, its progress advancing by a fixed step on every tick of the
 position timer, and it restarts on a freshly drawn node pair once a traversal
 completes. Progress is a real number here, not an IEEE double.
 */
module DataParticle {
  import opened Geometry

  /** Progress added on every tick. */
  const Increment: real := 0.015

  /** Ticks in one traversal: 66 ticks advance it, the 67th restarts it. */
  const Period: nat := 67

  /** The record `createDataParticle` keeps per particle: the endpoint positions
      captured by value, and the progress along the way. */
  datatype Particle = Particle(start: Point, end: Point, progress: real)

  /** Progress lies in [0, 1). */
  predicate Valid(p: Particle) {
    0.0 <= p.progress < 1.0
  }

  /** A new particle on the node pair (`createDataParticle`). */
  function Spawn(start: Point, end: Point): (p: Particle)
    ensures Valid(p)
    ensures Position(p) == start
  {
    Particle(start, end, 0.0)
  }

  /** Where the particle is displayed: between its endpoints, each axis on its own. */
  function Position(p: Particle): (q: Point)
    ensures Valid(p) ==> InBox(q, p.start, p.end)
    ensures p.progress == 0.0 ==> q == p.start
  {
    Interpolate(p.start, p.end, p.progress)
  }

  /** One tick of the position timer; `next` is the node pair drawn if the traversal completes. */
  function Tick(p: Particle, next: (Point, Point)): (q: Particle)
    ensures 0.0 <= p.progress ==> Valid(q)
    ensures p.progress + Increment >= 1.0 ==> q == Particle(next.0, next.1, 0.0)
    ensures p.progress + Increment < 1.0 ==>
      q.start == p.start && q.end == p.end && q.progress == p.progress + Increment
  {
    var progress := p.progress + Increment;
    if progress >= 1.0 then Particle(next.0, next.1, 0.0)
    else p.(progress := progress)
  }

  /** On the tick that completes a traversal the particle is displayed at the freshly drawn start. */
  lemma RestartShowsFreshStart(p: Particle, next: (Point, Point))
    requires p.progress + Increment >= 1.0
    ensures Position(Tick(p, next)) == next.0
  {
  }

  /** Ticks one after another, the i-th using `next[i]` if it completes a traversal. */
  function Run(p: Particle, next: seq<(Point, Point)>): Particle
    decreases |next|
  {
    if |next| == 0 then p else Run(Tick(p, next[0]), next[1..])
  }

  /** Within a traversal, `n` ticks advance progress by exactly `n` steps. */
  lemma {:induction false} RunAdvances(p: Particle, next: seq<(Point, Point)>, k: nat)
    requires p.progress == k as real * Increment
    requires k + |next| < Period
    ensures Run(p, next) == Particle(p.start, p.end, (k + |next|) as real * Increment)
    decreases |next|
  {
    if |next| > 0 {
      var q := Tick(p, next[0]);
      assert q == Particle(p.start, p.end, (k + 1) as real * Increment);
      RunAdvances(q, next[1..], k + 1);
    }
  }

  /** A traversal lasts exactly `Period` ticks: from a new particle the first
      `Period - 1` ticks keep its endpoints, and tick `Period` restarts it on
      the pair drawn for that tick. */
  lemma {:induction false} TraversalTakesPeriodTicks(p: Particle, next: seq<(Point, Point)>)
    requires p.progress == 0.0
    requires |next| == Period
    ensures Run(p, next[..Period - 1]) == Particle(p.start, p.end, 0.99)
    ensures Run(p, next) == Particle(next[Period - 1].0, next[Period - 1].1, 0.0)
  {
    var before := next[..Period - 1];
    RunAdvances(p, before, 0);
    var q := Run(p, before);
    RunSplit(p, before, [next[Period - 1]]);
    assert before + [next[Period - 1]] == next;
  }

  /** Running a concatenation is running one part after the other. */
  lemma {:induction false} RunSplit(p: Particle, a: seq<(Point, Point)>, b: seq<(Point, Point)>)
    ensures Run(p, a + b) == Run(Run(p, a), b)
    decreases |a|
  {
    if |a| == 0 {
      assert a + b == b;
    } else {
      assert (a + b)[0] == a[0];
      assert (a + b)[1..] == a[1..] + b;
      RunSplit(Tick(p, a[0]), a[1..], b);
    }
  }
}
