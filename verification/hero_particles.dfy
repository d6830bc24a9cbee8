/**
 The drifting particles of the hero section: the parameters each particle is
 created with, and the pointer parallax that shifts the particles by an
 amount depending on the pointer's position and on the particle's index.
 The drift itself is declarative motion of the rendering layer.
 */
module HeroParticles {
  import opened Geometry

  /** Particles the hero section creates. */
  const ParticleCount: nat := 25

  /** The five draws one particle takes, in the order they are taken. */
  datatype DriftDraws = DriftDraws(x: real, y: real, delay: real, duration: real, size: real)

  predicate IsDriftDraws(d: DriftDraws) {
    IsDraw(d.x) && IsDraw(d.y) && IsDraw(d.delay) && IsDraw(d.duration) && IsDraw(d.size)
  }

  /** A particle's parameters: start position in percent of the container
      (the top below the visible area), animation delay and duration in
      seconds, size in pixels. */
  datatype DriftParticle = DriftParticle(left: real, top: real, delay: real, duration: real, size: real)

  /** The ranges the parameters are drawn from. */
  predicate InRanges(p: DriftParticle) {
    && 0.0 <= p.left < 100.0
    && 100.0 <= p.top < 200.0
    && 0.0 <= p.delay < 8.0
    && 8.0 <= p.duration < 12.0
    && 2.0 <= p.size < 6.0
  }

  /** The parameters one particle gets from its draws. */
  function Create(d: DriftDraws): (p: DriftParticle)
    requires IsDriftDraws(d)
    ensures InRanges(p)
  {
    DriftParticle(d.x * 100.0, d.y * 100.0 + 100.0, d.delay * 8.0, 8.0 + d.duration * 4.0, 2.0 + d.size * 4.0)
  }

  /** The draws that yield given parameters. */
  function DrawsFor(p: DriftParticle): (d: DriftDraws)
    requires InRanges(p)
    ensures IsDriftDraws(d)
  {
    DriftDraws(p.left / 100.0, (p.top - 100.0) / 100.0, p.delay / 8.0, (p.duration - 8.0) / 4.0, (p.size - 2.0) / 4.0)
  }

  /** Every parameter combination within the ranges is produced by some draws,
      so the ranges are exactly the values `Create` can return. */
  lemma CreateCoversRanges(p: DriftParticle)
    requires InRanges(p)
    ensures Create(DrawsFor(p)) == p
  {
  }

  /** `createParticles`: one particle per draw tuple, in order. */
  function CreateParticles(ds: seq<DriftDraws>): (ps: seq<DriftParticle>)
    requires |ds| == ParticleCount
    requires forall i :: 0 <= i < |ds| ==> IsDriftDraws(ds[i])
    ensures |ps| == ParticleCount
    ensures forall i :: 0 <= i < |ps| ==> InRanges(ps[i])
  {
    seq(|ds|, i requires 0 <= i < |ds| => Create(ds[i]))
  }

  /** The pointer's position along one axis as a percentage of the container's extent. */
  function Percent(client: real, origin: real, extent: real): (pct: real)
    requires extent > 0.0
    ensures origin <= client <= origin + extent ==> 0.0 <= pct <= 100.0
  {
    var frac := (client - origin) / extent;
    assert origin <= client <= origin + extent ==> 0.0 <= frac <= 1.0 by {
      if origin <= client <= origin + extent {
        DivideWithin(client - origin, extent);
      }
    }
    frac * 100.0
  }

  lemma DivideWithin(a: real, b: real)
    requires b > 0.0 && 0.0 <= a <= b
    ensures 0.0 <= a / b <= 1.0
  {
    assert (a / b) * b == a;
  }

  /** The parallax speed of the particle at `index`: three tiers by index modulo 3. */
  function Speed(index: nat): (s: real)
    ensures index % 3 == 0 ==> s == 0.5
    ensures index % 3 == 1 ==> s == 1.0
    ensures index % 3 == 2 ==> s == 1.5
  {
    (index % 3 + 1) as real * 0.5
  }

  /** The tiers repeat every three particles. */
  lemma SpeedPeriodic(index: nat)
    ensures Speed(index + 3) == Speed(index)
  {
    assert (index + 3) % 3 == index % 3;
  }

  /** Two particles move at the same speed exactly when their indices agree modulo 3. */
  lemma SpeedTiers(i: nat, j: nat)
    ensures Speed(i) == Speed(j) <==> i % 3 == j % 3
  {
  }

  /** The translation along one axis for a pointer at `pct` percent. */
  function Offset(index: nat, pct: real): (off: real)
    ensures pct == 50.0 ==> off == 0.0
    ensures pct < 50.0 <==> off < 0.0
    ensures 0.0 <= pct <= 100.0 ==> -7.5 <= off <= 7.5
  {
    var s := Speed(index);
    OffsetBounds(pct, s);
    (pct - 50.0) * s * 0.1
  }

  lemma OffsetBounds(pct: real, s: real)
    requires s == 0.5 || s == 1.0 || s == 1.5
    ensures pct == 50.0 ==> (pct - 50.0) * s * 0.1 == 0.0
    ensures pct < 50.0 <==> (pct - 50.0) * s * 0.1 < 0.0
    ensures 0.0 <= pct <= 100.0 ==> -7.5 <= (pct - 50.0) * s * 0.1 <= 7.5
  {
    if s == 0.5 {
      assert (pct - 50.0) * s * 0.1 == (pct - 50.0) * 0.05;
    } else if s == 1.0 {
      assert (pct - 50.0) * s * 0.1 == (pct - 50.0) * 0.1;
    } else {
      assert (pct - 50.0) * s * 0.1 == (pct - 50.0) * 0.15;
    }
  }

  /** The offset of each speed tier: 0.05, 0.1 or 0.15 pixels per percent from the centre. */
  lemma OffsetByTier(index: nat, pct: real)
    ensures index % 3 == 0 ==> Offset(index, pct) == (pct - 50.0) * 0.05
    ensures index % 3 == 1 ==> Offset(index, pct) == (pct - 50.0) * 0.1
    ensures index % 3 == 2 ==> Offset(index, pct) == (pct - 50.0) * 0.15
  {
    var s := Speed(index);
    if index % 3 == 0 {
      assert (pct - 50.0) * s * 0.1 == (pct - 50.0) * 0.05;
    } else if index % 3 == 1 {
      assert (pct - 50.0) * s * 0.1 == (pct - 50.0) * 0.1;
    } else {
      assert (pct - 50.0) * s * 0.1 == (pct - 50.0) * 0.15;
    }
  }

  /** Away from the centre, two particles are translated alike exactly when
      they are in the same speed tier. */
  lemma {:induction false} OffsetTiers(i: nat, j: nat, pct: real)
    requires pct != 50.0
    ensures Offset(i, pct) == Offset(j, pct) <==> i % 3 == j % 3
  {
    OffsetByTier(i, pct);
    OffsetByTier(j, pct);
  }

  /** Away from the centre, a particle of a faster tier is translated farther. */
  lemma {:induction false} FasterTierMovesFarther(i: nat, j: nat, pct: real)
    requires pct != 50.0 && Speed(i) < Speed(j)
    ensures Abs(Offset(i, pct)) < Abs(Offset(j, pct))
  {
    OffsetByTier(i, pct);
    OffsetByTier(j, pct);
  }

  function Abs(x: real): real {
    if x < 0.0 then -x else x
  }

  /** A particle's transform: cleared, or a translation in pixels. */
  datatype Transform = Identity | Translate(dx: real, dy: real)

  /** A pointer move at (`x`, `y`) percent over `n` particles. */
  function PointerMove(n: nat, x: real, y: real): (ts: seq<Transform>)
    ensures |ts| == n
    ensures forall i :: 0 <= i < n ==> ts[i].Translate?
    ensures forall i :: 0 <= i < n ==> ts[i].dx == Offset(i, x) && ts[i].dy == Offset(i, y)
    ensures forall i :: 0 <= i < n && 0.0 <= x <= 100.0 ==> -7.5 <= ts[i].dx <= 7.5
    ensures forall i :: 0 <= i < n && 0.0 <= y <= 100.0 ==> -7.5 <= ts[i].dy <= 7.5
    ensures x == 50.0 && y == 50.0 ==> forall i :: 0 <= i < n ==> ts[i] == Translate(0.0, 0.0)
  {
    seq(n, i requires 0 <= i < n => Translate(Offset(i, x), Offset(i, y)))
  }

  /** Particles three apart in creation order always move together. */
  lemma SameTierSameOffset(n: nat, x: real, y: real, i: nat)
    requires i + 3 < n
    ensures PointerMove(n, x, y)[i] == PointerMove(n, x, y)[i + 3]
  {
    SpeedPeriodic(i);
  }

  /** Leaving the container clears every particle's transform. */
  function PointerLeave(n: nat): (ts: seq<Transform>)
    ensures |ts| == n
    ensures forall i :: 0 <= i < n ==> ts[i] == Identity
  {
    seq(n, i => Identity)
  }
}
