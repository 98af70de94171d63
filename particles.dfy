/**
 * `Particles::updatePos` of `src/particles.h`: every particle keeps a trail
 * of its recent positions, a queue whose front (index 0) is the oldest.
 * Each update pushes the entity's position, pads a short trail up to
 * `trailSize` entries with further copies of it, or pops the oldest entry
 * from a trail that has become one too long, and copies the entity's scale.
 */
module Particles {
  import opened Vectors
  import opened Components
  import opened StringView

  /** `n` copies of `v`. */
  function Repeat(v: Vec3, n: nat): (r: seq<Vec3>)
    ensures |r| == n
    ensures forall i :: 0 <= i < n ==> r[i] == v
  {
    if n == 0 then [] else Repeat(v, n - 1) + [v]
  }

  /**
   * The trail after one update: the position is pushed; if the queue then
   * does not hold `trailSize + 1` entries it receives `trailSize - size`
   * more copies, counted in `size_t`, and otherwise its front is popped.
   */
  function NextTrail(trail: seq<Vec3>, pos: Vec3, trailSize: nat): seq<Vec3>
  {
    var pushed := trail + [pos];
    if |pushed| != trailSize + 1 then pushed + Repeat(pos, SizeT(trailSize - |pushed|))
    else pushed[1..]
  }

  /**
   * The particle after one update: it takes the entity's scale; its newest
   * entry is the entity's position; a trail of at most `trailSize` entries
   * ends with exactly `trailSize`.
   */
  function UpdatedParticle(p: Particle, t: Trans, trailSize: nat): (r: Particle)
    ensures r.scale == t.scale
    ensures |r.trail| > 0 ==> r.trail[|r.trail| - 1] == t.pos
    ensures |r.trail| == 0 <==> |p.trail| == 0 && trailSize == 0
    ensures trailSize < SIZE_MOD && Bounded(p.trail, trailSize) ==> |r.trail| == trailSize
  {
    var r := Particle(NextTrail(p.trail, t.pos, trailSize), t.scale);
    NewestIsPosition(p.trail, t.pos, trailSize);
    assert trailSize < SIZE_MOD && Bounded(p.trail, trailSize) ==> |r.trail| == trailSize by {
      if trailSize < SIZE_MOD && Bounded(p.trail, trailSize) {
        TrailKeepsLength(p.trail, t.pos, trailSize);
      }
    }
    r
  }

  /** Every entity of the view carries a transform and a particle. */
  predicate ViewIn(view: seq<EntityId>, trans: map<EntityId, Trans>, particles: map<EntityId, Particle>)
  {
    forall k :: 0 <= k < |view| ==> view[k] in trans && view[k] in particles
  }

  /** The particle pool after the first `n` entities of the view are updated, in order. */
  function UpdateAll(view: seq<EntityId>, trans: map<EntityId, Trans>, particles: map<EntityId, Particle>,
                     trailSize: nat, n: nat): (r: map<EntityId, Particle>)
    requires n <= |view| && ViewIn(view, trans, particles)
    ensures r.Keys == particles.Keys
  {
    if n == 0 then particles
    else
      var m := UpdateAll(view, trans, particles, trailSize, n - 1);
      var e := view[n - 1];
      m[e := UpdatedParticle(m[e], trans[e], trailSize)]
  }

  /** The trail is one the loop keeps in bounds: at most `trailSize` entries. */
  predicate Bounded(trail: seq<Vec3>, trailSize: nat) { |trail| <= trailSize }

  /**
   * A trail of at most `trailSize` entries holds exactly `trailSize`
   * afterwards.
   */
  lemma TrailKeepsLength(trail: seq<Vec3>, pos: Vec3, trailSize: nat)
    requires trailSize < SIZE_MOD && Bounded(trail, trailSize)
    ensures |NextTrail(trail, pos, trailSize)| == trailSize
  {
    if |trail| < trailSize {
      assert SizeT(trailSize - (|trail| + 1)) == trailSize - (|trail| + 1);
    }
  }

  /**
   * The newest entry is the entity's position; the trail is empty only when
   * `trailSize` is 0 and the trail was empty.
   */
  lemma NewestIsPosition(trail: seq<Vec3>, pos: Vec3, trailSize: nat)
    ensures var r := NextTrail(trail, pos, trailSize);
      (|r| == 0 <==> |trail| == 0 && trailSize == 0) && (|r| > 0 ==> r[|r| - 1] == pos)
  {
    var pushed := trail + [pos];
    if |pushed| != trailSize + 1 {
      var r := pushed + Repeat(pos, SizeT(trailSize - |pushed|));
      assert r[|pushed| - 1] == pos;
    }
  }

  /** A full trail loses exactly its oldest entry; the others keep their order. */
  lemma FullTrailDropsOldest(trail: seq<Vec3>, pos: Vec3, trailSize: nat)
    requires |trail| == trailSize
    ensures 0 < trailSize ==> NextTrail(trail, pos, trailSize) == trail[1..] + [pos]
    ensures trailSize == 0 ==> NextTrail(trail, pos, trailSize) == []
  {
    if 0 < trailSize {
      assert (trail + [pos])[1..] == trail[1..] + [pos];
    }
  }

  /**
   * A short trail keeps every entry and is padded at the back with copies
   * of the position up to `trailSize` entries.
   */
  lemma ShortTrailIsPadded(trail: seq<Vec3>, pos: Vec3, trailSize: nat)
    requires trailSize < SIZE_MOD && |trail| < trailSize
    ensures NextTrail(trail, pos, trailSize) == trail + Repeat(pos, trailSize - |trail|)
  {
    var pad := trailSize - (|trail| + 1);
    assert SizeT(trailSize - (|trail| + 1)) == pad;
    assert Repeat(pos, pad + 1) == Repeat(pos, pad) + [pos];
    assert [pos] + Repeat(pos, pad) == Repeat(pos, pad) + [pos];
  }

  /**
   * A trail longer than `trailSize` is never shortened: the padding count
   * wraps around in `size_t`, and the trail grows by 2^64 entries minus its
   * excess.
   */
  lemma OverlongTrailWraps(trail: seq<Vec3>, pos: Vec3, trailSize: nat)
    requires trailSize < |trail| < SIZE_MOD
    ensures |NextTrail(trail, pos, trailSize)| == trailSize + SIZE_MOD
  {
    assert SizeT(trailSize - (|trail| + 1)) == trailSize - (|trail| + 1) + SIZE_MOD;
  }

  /** An entity that `view[j..n]` does not visit keeps the particle it had after `j` updates. */
  lemma {:induction false} Untouched(view: seq<EntityId>, trans: map<EntityId, Trans>,
                                     particles: map<EntityId, Particle>, trailSize: nat, j: nat, n: nat, e: EntityId)
    requires j <= n <= |view| && ViewIn(view, trans, particles) && e in particles
    requires forall k :: j <= k < n ==> view[k] != e
    ensures UpdateAll(view, trans, particles, trailSize, n)[e] == UpdateAll(view, trans, particles, trailSize, j)[e]
    decreases n
  {
    if j < n {
      Untouched(view, trans, particles, trailSize, j, n - 1, e);
    }
  }

  /**
   * After a pass over a view without repeated entities, each of its
   * particles has been updated exactly once and every other one is as
   * before.
   */
  lemma UpdateAllAt(view: seq<EntityId>, trans: map<EntityId, Trans>,
                    particles: map<EntityId, Particle>, trailSize: nat, e: EntityId)
    requires ViewIn(view, trans, particles) && Distinct(view) && e in particles
    ensures UpdateAll(view, trans, particles, trailSize, |view|)[e]
         == if e in view then UpdatedParticle(particles[e], trans[e], trailSize) else particles[e]
  {
    if e in view {
      var k :| 0 <= k < |view| && view[k] == e;
      UpdatedOnce(view, trans, particles, trailSize, k);
    } else {
      Untouched(view, trans, particles, trailSize, 0, |view|, e);
    }
  }

  /** The entity at position `k` of a view without repeats is updated once, from its original particle. */
  lemma UpdatedOnce(view: seq<EntityId>, trans: map<EntityId, Trans>,
                    particles: map<EntityId, Particle>, trailSize: nat, k: nat)
    requires ViewIn(view, trans, particles) && Distinct(view) && k < |view|
    ensures UpdateAll(view, trans, particles, trailSize, |view|)[view[k]]
         == UpdatedParticle(particles[view[k]], trans[view[k]], trailSize)
  {
    var e := view[k];
    var before, after := UpdateAll(view, trans, particles, trailSize, k), UpdateAll(view, trans, particles, trailSize, k + 1);
    assert before[e] == particles[e] by {
      Untouched(view, trans, particles, trailSize, 0, k, e);
    }
    assert after == before[e := UpdatedParticle(before[e], trans[e], trailSize)];
    assert UpdateAll(view, trans, particles, trailSize, |view|)[e] == after[e] by {
      Untouched(view, trans, particles, trailSize, k + 1, |view|, e);
    }
  }

  /**
   * Trails at most `trailSize` long all hold exactly `trailSize` entries
   * after a pass over a view without repeated entities.
   */
  lemma TrailsFilled(view: seq<EntityId>, trans: map<EntityId, Trans>,
                     particles: map<EntityId, Particle>, trailSize: nat)
    requires ViewIn(view, trans, particles) && Distinct(view) && trailSize < SIZE_MOD
    requires forall k :: 0 <= k < |view| ==> Bounded(particles[view[k]].trail, trailSize)
    ensures forall k :: 0 <= k < |view| ==>
      |UpdateAll(view, trans, particles, trailSize, |view|)[view[k]].trail| == trailSize
  {
    forall k | 0 <= k < |view|
      ensures |UpdateAll(view, trans, particles, trailSize, |view|)[view[k]].trail| == trailSize
    {
      var e := view[k];
      UpdateAllAt(view, trans, particles, trailSize, e);
      TrailKeepsLength(particles[e].trail, trans[e].pos, trailSize);
    }
  }

  /**
   * The padding loop: pushes `SizeT(trailSize - |trail|)` copies of `pos`,
   * one per pass, counting down.
   */
  method Pad(trail: seq<Vec3>, pos: Vec3, trailSize: nat) returns (padded: seq<Vec3>)
    ensures padded == trail + Repeat(pos, SizeT(trailSize - |trail|))
  {
    padded := trail;
    var count := SizeT(trailSize - |trail|);
    var i := count;
    while 0 < i
      invariant i <= count
      invariant padded == trail + Repeat(pos, count - i)
    {
      assert Repeat(pos, count - i + 1) == Repeat(pos, count - i) + [pos];
      padded := padded + [pos];
      i := i - 1;
    }
  }

  /** The body of `updatePos` for one entity: push, then pad or pop, then copy the scale. */
  method UpdateOne(reg: Registry, e: EntityId, trailSize: nat)
    requires e in reg.trans && e in reg.particles
    modifies reg
    ensures reg.trans == old(reg.trans) && reg.phys == old(reg.phys)
    ensures reg.particles == old(reg.particles)[e := UpdatedParticle(old(reg.particles)[e], reg.trans[e], trailSize)]
  {
    var t, p := reg.trans[e], reg.particles[e];
    var trail := p.trail + [t.pos];
    if |trail| != trailSize + 1 {
      trail := Pad(trail, t.pos, trailSize);
    } else {
      trail := trail[1..];
    }
    reg.particles := reg.particles[e := p.(trail := trail)];
    reg.particles := reg.particles[e := reg.particles[e].(scale := t.scale)];
  }

  /**
   * `updatePos(view)`: every entity of the view, in order, has its particle
   * updated; no transform is written.
   */
  method UpdatePos(reg: Registry, view: seq<EntityId>, trailSize: nat)
    requires ViewIn(view, reg.trans, reg.particles)
    modifies reg
    ensures reg.particles == UpdateAll(view, old(reg.trans), old(reg.particles), trailSize, |view|)
    ensures reg.trans == old(reg.trans) && reg.phys == old(reg.phys)
  {
    for n := 0 to |view|
      invariant reg.trans == old(reg.trans) && reg.phys == old(reg.phys)
      invariant reg.particles == UpdateAll(view, reg.trans, old(reg.particles), trailSize, n)
    {
      UpdateOne(reg, view[n], trailSize);
    }
  }
}
