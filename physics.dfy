/**
 * `calcPhysics` and `enforcePosition` of `src/physics.h` as methods that
 * update the entity store in place, each proved equal to its specification
 * in module PhysicsSpec.
 */
module Physics {
  import opened Vectors
  import opened Components
  import opened PhysicsSpec

  /**
   * The inner loop of the gravity pass for body `view[i]`: it accumulates the
   * pull of every other body and records every body overlapping `view[i]`.
   */
  method AccumulateBody(num: Numerics, reg: Registry, view: seq<EntityId>, i: nat)
    returns (f: Vec3, found: seq<EntityPair>)
    requires i < |view| && InMaps(view, reg.trans, reg.phys)
    ensures f == ForceOn(num, view, reg.trans, reg.phys, i, |view|)
    ensures found == PairsFrom(view, reg.trans, i, |view|)
  {
    var e := view[i];
    var t := reg.trans[e];
    var p := reg.phys[e];
    f, found := Zero, [];
    for j := 0 to |view|
      invariant f == ForceOn(num, view, reg.trans, reg.phys, i, j)
      invariant found == PairsFrom(view, reg.trans, i, j)
    {
      if i == j {
        continue;
      }
      var other := view[j];
      var t2, p2 := reg.trans[other], reg.phys[other];
      var dist := Sub(t2.pos, t.pos);
      var distNorm := num.normalize(dist);
      f := Add(f, Scale(distNorm, CalcGravity(p.mass, p2.mass, ComponentCount(dist))));
      if IsColliding(t, t2) {
        found := found + [(e, other)];
      }
    }
  }

  /**
   * One iteration of the gravity pass's outer loop, for body `view[i]`: the
   * pairs it records are appended to `pairs`, and its velocity is updated
   * unless it is static or its acceleration is NaN.
   */
  method GravityBody(num: Numerics, reg: Registry, view: seq<EntityId>, time: real, i: nat,
                     pairs: seq<EntityPair>)
    returns (collidedObjects: seq<EntityPair>)
    requires i < |view| && InMaps(view, reg.trans, reg.phys)
    modifies reg
    ensures reg.trans == old(reg.trans) && reg.particles == old(reg.particles)
    ensures GravityState(reg.phys, collidedObjects)
         == GravityStep(num, view, reg.trans, GravityState(old(reg.phys), pairs), time, i)
  {
    collidedObjects := pairs;
    var e := view[i];
    var p := reg.phys[e];
    if p.isStatic {
      return;
    }
    var f, found := AccumulateBody(num, reg, view, i);
    collidedObjects := collidedObjects + found;
    var a := VDiv(f, p.mass);
    if num.isNaN(a) {
      return;
    }
    reg.phys := reg.phys[e := p.(vel := Add(p.vel, Scale(a, time)))];
  }

  /**
   * The gravity pass: updates the velocity of every non-static body whose
   * acceleration is not NaN, writes no transform, and returns the list of
   * overlapping pairs.
   */
  method ApplyGravity(num: Numerics, reg: Registry, view: seq<EntityId>, time: real)
    returns (collidedObjects: seq<EntityPair>)
    requires InMaps(view, reg.trans, reg.phys)
    modifies reg
    ensures reg.trans == old(reg.trans) && reg.particles == old(reg.particles)
    ensures GravityState(reg.phys, collidedObjects)
         == GravityPass(num, view, old(reg.trans), old(reg.phys), time, |view|)
  {
    collidedObjects := [];
    for i := 0 to |view|
      invariant reg.trans == old(reg.trans) && reg.particles == old(reg.particles)
      invariant InMaps(view, reg.trans, reg.phys)
      invariant GravityState(reg.phys, collidedObjects)
             == GravityPass(num, view, reg.trans, old(reg.phys), time, i)
    {
      collidedObjects := GravityBody(num, reg, view, time, i, collidedObjects);
    }
  }

  /** The deduplication scan: does the mirror of entry `k` occur before it? */
  method PreviouslyTested(pairs: seq<EntityPair>, k: nat) returns (tested: bool)
    requires k < |pairs|
    ensures tested == MirrorEarlier(pairs, k)
  {
    var (e1, e2) := pairs[k];
    tested := false;
    var prev := 0;
    while prev < k
      invariant 0 <= prev <= k
      invariant forall m :: 0 <= m < prev ==> pairs[m] != Mirror(pairs[k])
    {
      if e1 == pairs[prev].1 && e2 == pairs[prev].0 {
        tested := true;
        break;
      }
      prev := prev + 1;
    }
  }

  /**
   * `enforcePosition` on the transforms of `e1` and `e2`: both static, nothing
   * is written; one static, only the other body's position is written;
   * neither, both positions are written.
   */
  method EnforcePosition(num: Numerics, reg: Registry, e1: EntityId, e2: EntityId,
                         p1Static: bool, p2Static: bool)
    requires e1 in reg.trans && e2 in reg.trans
    modifies reg
    ensures reg.trans == EnforcedTrans(num, old(reg.trans), e1, e2, p1Static, p2Static)
    ensures reg.phys == old(reg.phys) && reg.particles == old(reg.particles)
  {
    if p1Static && p2Static {
      return;
    }
    var t1, t2 := reg.trans[e1], reg.trans[e2];
    var r1, r2 := t1.scale.x, t2.scale.x;
    var dist := Sub(t2.pos, t1.pos);
    var dir := num.normalize(dist);
    var centre := Add(t1.pos, Scale(dist, Div(r1, r2)));
    if p2Static {
      reg.trans := reg.trans[e1 := reg.trans[e1].(pos := Sub(centre, Scale(dir, r1)))];
    } else if p1Static {
      reg.trans := reg.trans[e2 := reg.trans[e2].(pos := Add(centre, Scale(dir, r2)))];
    } else {
      reg.trans := reg.trans[e1 := reg.trans[e1].(pos := Sub(centre, Scale(Scale(dir, r1), 0.5)))];
      reg.trans := reg.trans[e2 := reg.trans[e2].(pos := Add(centre, Scale(Scale(dir, r2), 0.5)))];
    }
  }

  /**
   * One resolved collision: positions corrected by `enforcePosition`, then
   * each impulse added to its body's velocity.
   */
  method ResolvePairInPlace(num: Numerics, reg: Registry, e1: EntityId, e2: EntityId)
    requires PairIn(e1, e2, World(reg.trans, reg.phys))
    modifies reg
    ensures World(reg.trans, reg.phys) == ResolvePair(num, World(old(reg.trans), old(reg.phys)), e1, e2)
    ensures reg.particles == old(reg.particles)
  {
    EnforcePosition(num, reg, e1, e2, reg.phys[e1].isStatic, reg.phys[e2].isStatic);
    var (v1, v2) := GetImpactVel(num, reg.phys[e1], reg.phys[e2]);
    reg.phys := reg.phys[e1 := reg.phys[e1].(vel := Add(reg.phys[e1].vel, v1))];
    reg.phys := reg.phys[e2 := reg.phys[e2].(vel := Add(reg.phys[e2].vel, v2))];
  }

  /**
   * One iteration of the resolution loop: entry `k` is resolved unless its
   * mirror came earlier. Started from the state the loop reaches after `k`
   * entries from `w0`, it leaves the state after `k + 1` entries.
   */
  method ResolveEntry(num: Numerics, reg: Registry, collidedObjects: seq<EntityPair>, k: nat, ghost w0: World)
    requires k < |collidedObjects| && PairsIn(collidedObjects, w0)
    requires World(reg.trans, reg.phys) == Resolve(num, w0, collidedObjects, k)
    modifies reg
    ensures World(reg.trans, reg.phys) == Resolve(num, w0, collidedObjects, k + 1)
    ensures reg.particles == old(reg.particles)
  {
    var (e1, e2) := collidedObjects[k];
    var previouslyTested := PreviouslyTested(collidedObjects, k);
    if previouslyTested {
      return;
    }
    ResolvePairInPlace(num, reg, e1, e2);
  }

  /** The resolution loop over the recorded pairs, skipping an entry whose mirror came earlier. */
  method ResolveCollisions(num: Numerics, reg: Registry, collidedObjects: seq<EntityPair>)
    requires PairsIn(collidedObjects, World(reg.trans, reg.phys))
    modifies reg
    ensures World(reg.trans, reg.phys)
         == Resolve(num, World(old(reg.trans), old(reg.phys)), collidedObjects, |collidedObjects|)
    ensures reg.particles == old(reg.particles)
  {
    ghost var w0 := World(reg.trans, reg.phys);
    for k := 0 to |collidedObjects|
      invariant reg.particles == old(reg.particles)
      invariant World(reg.trans, reg.phys) == Resolve(num, w0, collidedObjects, k)
    {
      ResolveEntry(num, reg, collidedObjects, k, w0);
    }
  }

  /** The final loop: every body of the view moves by `vel * time`. */
  method ApplyVelocities(reg: Registry, view: seq<EntityId>, time: real)
    requires InMaps(view, reg.trans, reg.phys)
    modifies reg
    ensures reg.trans == Integrate(view, old(reg.trans), old(reg.phys), time, |view|)
    ensures reg.phys == old(reg.phys) && reg.particles == old(reg.particles)
  {
    for i := 0 to |view|
      invariant reg.phys == old(reg.phys) && reg.particles == old(reg.particles)
      invariant reg.trans == Integrate(view, old(reg.trans), old(reg.phys), time, i)
    {
      var e := view[i];
      reg.trans := reg.trans[e := reg.trans[e].(pos := Add(reg.trans[e].pos, Scale(reg.phys[e].vel, time)))];
    }
  }

  /**
   * `calcPhysics`: one tick over the bodies of `view`. A step at or below
   * MIN_TICK_TIME changes nothing; otherwise the store ends in the state
   * `Tick` describes.
   */
  method CalcPhysics(num: Numerics, reg: Registry, view: seq<EntityId>, deltaTime: real)
    requires InMaps(view, reg.trans, reg.phys)
    modifies reg
    ensures deltaTime <= MIN_TICK_TIME ==> reg.trans == old(reg.trans) && reg.phys == old(reg.phys)
    ensures World(reg.trans, reg.phys) == Tick(num, view, old(reg.trans), old(reg.phys), deltaTime)
    ensures reg.particles == old(reg.particles)
  {
    if deltaTime <= MIN_TICK_TIME {
      return;
    }
    var time := deltaTime;
    var collidedObjects := ApplyGravity(num, reg, view, time);
    ResolveCollisions(num, reg, collidedObjects);
    ApplyVelocities(reg, view, time);
  }
}
