/**
 * The physics tick of `src/physics.h` as pure functions over the component
 * maps: the gravity pass (velocities and the list of overlapping pairs), the
 * collision resolution over that list with its mirror-pair deduplication,
 * and the integration of positions. The imperative methods in module
 * Physics are proved equal to these functions.
 */
module PhysicsSpec {
  import opened Vectors
  import opened Components

  /** `std::numeric_limits<float>::epsilon()`, that is 2^-23. */
  const MIN_TICK_TIME: real := 1.0 / 8388608.0

  /** The gravitational constant of the gravity law. */
  const G: real := 0.000000000066743

  /** The state the tick reads and writes: transforms and physics records. */
  datatype World = World(trans: map<EntityId, Trans>, phys: map<EntityId, Phys>)

  /** Newton's law of gravitation, `G * m1 * m2 / distance^2`. */
  function CalcGravity(m1: real, m2: real, distance: real): real
  {
    Div(G * m1 * m2, distance * distance)
  }

  /**
   * GLM's member function `length()` on a vector value returns its number of
   * components, not its Euclidean length; the gravity pass calls it on the
   * separation vector.
   */
  function ComponentCount(v: Vec3): real { 3.0 }

  /** Sphere overlap test: squared centre distance below the squared radius sum. */
  predicate IsColliding(s1: Trans, s2: Trans)
  {
    DistSq(Sub(s1.pos, s2.pos)) < (s1.scale.x + s2.scale.x) * (s1.scale.x + s2.scale.x)
  }

  // ---------------------------------------------------------------------
  // Gravity pass
  // ---------------------------------------------------------------------

  predicate InTrans(view: seq<EntityId>, trans: map<EntityId, Trans>)
  {
    forall k :: 0 <= k < |view| ==> view[k] in trans
  }

  /** The gravity contribution of body `o` to the force accumulated for body `e`. */
  function Pull(num: Numerics, trans: map<EntityId, Trans>, phys: map<EntityId, Phys>, e: EntityId, o: EntityId): Vec3
    requires e in trans && o in trans && e in phys && o in phys
  {
    var dist := Sub(trans[o].pos, trans[e].pos);
    Scale(num.normalize(dist), CalcGravity(phys[e].mass, phys[o].mass, ComponentCount(dist)))
  }

  /** The force accumulated for body `view[i]` after the inner loop visited `view[..j]`. */
  function ForceOn(num: Numerics, view: seq<EntityId>, trans: map<EntityId, Trans>,
                   phys: map<EntityId, Phys>, i: nat, j: nat): Vec3
    requires i < |view| && j <= |view| && InMaps(view, trans, phys)
  {
    if j == 0 then Zero
    else
      var f := ForceOn(num, view, trans, phys, i, j - 1);
      if j - 1 == i then f else Add(f, Pull(num, trans, phys, view[i], view[j - 1]))
  }

  /** The pairs the inner loop for body `view[i]` records while visiting `view[..j]`. */
  function PairsFrom(view: seq<EntityId>, trans: map<EntityId, Trans>, i: nat, j: nat): (r: seq<EntityPair>)
    requires i < |view| && j <= |view| && InTrans(view, trans)
    ensures forall k :: 0 <= k < |r| ==> r[k].0 == view[i] && r[k].1 in view[..j]
  {
    if j == 0 then []
    else
      PairsFrom(view, trans, i, j - 1) +
        (if j - 1 != i && IsColliding(trans[view[i]], trans[view[j - 1]])
         then [(view[i], view[j - 1])] else [])
  }

  /** The acceleration `f / mass` of body `view[i]`. */
  function Accel(num: Numerics, view: seq<EntityId>, trans: map<EntityId, Trans>,
                 phys: map<EntityId, Phys>, i: nat): Vec3
    requires i < |view| && InMaps(view, trans, phys)
  {
    VDiv(ForceOn(num, view, trans, phys, i, |view|), phys[view[i]].mass)
  }

  /** What the gravity pass produces: the new physics records and the recorded pairs. */
  datatype GravityState = GravityState(phys: map<EntityId, Phys>, pairs: seq<EntityPair>)

  /**
   * The velocity update of body `view[i]`: `vel += a * time`, where `a` is its
   * acceleration, skipped when `a` is NaN. No other record changes.
   */
  function Kick(num: Numerics, view: seq<EntityId>, trans: map<EntityId, Trans>,
                phys: map<EntityId, Phys>, time: real, i: nat): (r: map<EntityId, Phys>)
    requires i < |view| && InMaps(view, trans, phys)
    ensures r.Keys == phys.Keys
    ensures forall e :: e in phys && e != view[i] ==> r[e] == phys[e]
    ensures r[view[i]] == phys[view[i]].(vel := r[view[i]].vel)
  {
    var e := view[i];
    var p := phys[e];
    var a := Accel(num, view, trans, phys, i);
    if num.isNaN(a) then phys
    else phys[e := p.(vel := Add(p.vel, Scale(a, time)))]
  }

  /**
   * One iteration of the gravity pass's outer loop, for body `view[i]`. A
   * static body is skipped; otherwise its overlapping partners are recorded
   * and its velocity is updated by `Kick`.
   */
  function GravityStep(num: Numerics, view: seq<EntityId>, trans: map<EntityId, Trans>,
                       s: GravityState, time: real, i: nat): (r: GravityState)
    requires i < |view| && InMaps(view, trans, s.phys)
    ensures r.phys.Keys == s.phys.Keys
  {
    if s.phys[view[i]].isStatic then s
    else GravityState(Kick(num, view, trans, s.phys, time, i), s.pairs + PairsFrom(view, trans, i, |view|))
  }

  /** The gravity pass after its outer loop visited `view[..n]`. */
  function GravityPass(num: Numerics, view: seq<EntityId>, trans: map<EntityId, Trans>,
                       phys: map<EntityId, Phys>, time: real, n: nat): (r: GravityState)
    requires n <= |view| && InMaps(view, trans, phys)
    ensures r.phys.Keys == phys.Keys
    ensures forall e :: e in phys ==>
      r.phys[e].mass == phys[e].mass && r.phys[e].isStatic == phys[e].isStatic
    ensures forall e :: e in phys && (phys[e].isStatic || e !in view[..n]) ==> r.phys[e] == phys[e]
    ensures forall k :: 0 <= k < |r.pairs| ==> r.pairs[k].0 in view[..n] && r.pairs[k].1 in view
  {
    if n == 0 then GravityState(phys, [])
    else
      var s := GravityPass(num, view, trans, phys, time, n - 1);
      assert view[..n] == view[..n - 1] + [view[n - 1]];
      assert view[..|view|] == view;
      GravityStep(num, view, trans, s, time, n - 1)
  }

  // ---------------------------------------------------------------------
  // Collision resolution
  // ---------------------------------------------------------------------

  /** A body's momentum as `getImpactVel` computes it: speed times mass. */
  function Momentum(num: Numerics, p: Phys): real
  {
    num.length(p.vel) * p.mass
  }

  /** Half the total momentum of the two bodies, the share each body receives. */
  function SharedMomentum(num: Numerics, p1: Phys, p2: Phys): real
  {
    (Momentum(num, p1) + Momentum(num, p2)) * 0.5
  }

  /**
   * The impulses `getImpactVel` returns for a colliding pair: a body hitting
   * a static one bounces back with `-2 * vel`; otherwise each body gets the
   * shared momentum divided by its own mass, against its own heading.
   */
  function GetImpactVel(num: Numerics, p1: Phys, p2: Phys): (Vec3, Vec3)
  {
    if p1.isStatic then (Zero, Scale(p2.vel, -2.0))
    else if p2.isStatic then (Scale(p1.vel, -2.0), Zero)
    else (Scale(Neg(num.normalize(p1.vel)), Div(SharedMomentum(num, p1, p2), p1.mass)),
          Scale(Neg(num.normalize(p2.vel)), Div(SharedMomentum(num, p1, p2), p2.mass)))
  }

  /**
   * The transforms after `enforcePosition(t1, t2, p1Static, p2Static)` on the
   * transforms of `e1` and `e2`. Only positions are written, and only those of
   * bodies that are not static; every other entry of the map is left as it was.
   */
  function EnforcedTrans(num: Numerics, trans: map<EntityId, Trans>, e1: EntityId, e2: EntityId,
                         p1Static: bool, p2Static: bool): (r: map<EntityId, Trans>)
    requires e1 in trans && e2 in trans
    ensures r.Keys == trans.Keys
    ensures forall e :: e in trans && e != e1 && e != e2 ==> r[e] == trans[e]
    ensures r[e1] == trans[e1].(pos := r[e1].pos) && r[e2] == trans[e2].(pos := r[e2].pos)
    ensures p1Static && p2Static ==> r == trans
    ensures p2Static && !p1Static && e1 != e2 ==> r[e2] == trans[e2]
    ensures p1Static && !p2Static && e1 != e2 ==> r[e1] == trans[e1]
  {
    if p1Static && p2Static then trans
    else
      var t1, t2 := trans[e1], trans[e2];
      var r1, r2 := t1.scale.x, t2.scale.x;
      var dist := Sub(t2.pos, t1.pos);
      var dir := num.normalize(dist);
      var centre := Add(t1.pos, Scale(dist, Div(r1, r2)));
      if p2Static then trans[e1 := t1.(pos := Sub(centre, Scale(dir, r1)))]
      else if p1Static then trans[e2 := t2.(pos := Add(centre, Scale(dir, r2)))]
      else
        var m := trans[e1 := t1.(pos := Sub(centre, Scale(Scale(dir, r1), 0.5)))];
        m[e2 := m[e2].(pos := Add(centre, Scale(Scale(dir, r2), 0.5)))]
  }

  /** Both entities of a pair carry a transform and a physics record. */
  predicate PairIn(e1: EntityId, e2: EntityId, w: World)
  {
    e1 in w.trans && e2 in w.trans && e1 in w.phys && e2 in w.phys
  }

  predicate PairsIn(pairs: seq<EntityPair>, w: World)
  {
    forall k :: 0 <= k < |pairs| ==> PairIn(pairs[k].0, pairs[k].1, w)
  }

  /**
   * One resolved collision: positions are corrected, then each body's
   * velocity grows by its impulse (the second update reads the record as
   * left by the first, as the references of the original do).
   */
  function ResolvePair(num: Numerics, w: World, e1: EntityId, e2: EntityId): (r: World)
    requires PairIn(e1, e2, w)
    ensures r.trans.Keys == w.trans.Keys && r.phys.Keys == w.phys.Keys
    ensures forall e :: e in w.phys ==>
      r.phys[e].mass == w.phys[e].mass && r.phys[e].isStatic == w.phys[e].isStatic
  {
    var p1, p2 := w.phys[e1], w.phys[e2];
    var trans := EnforcedTrans(num, w.trans, e1, e2, p1.isStatic, p2.isStatic);
    var imp := GetImpactVel(num, p1, p2);
    var phys := w.phys[e1 := p1.(vel := Add(p1.vel, imp.0))];
    World(trans, phys[e2 := phys[e2].(vel := Add(phys[e2].vel, imp.1))])
  }

  /** The pair with its two entities swapped. */
  function Mirror(p: EntityPair): EntityPair { (p.1, p.0) }

  /** The mirror of entry `k` occurs earlier in the list. */
  predicate MirrorEarlier(pairs: seq<EntityPair>, k: nat)
    requires k < |pairs|
  {
    exists m :: 0 <= m < k && pairs[m] == Mirror(pairs[k])
  }

  /** The resolution loop after it visited `pairs[..n]`; an entry whose mirror came earlier is skipped. */
  function Resolve(num: Numerics, w: World, pairs: seq<EntityPair>, n: nat): (r: World)
    requires n <= |pairs| && PairsIn(pairs, w)
    ensures r.trans.Keys == w.trans.Keys && r.phys.Keys == w.phys.Keys
    ensures forall e :: e in w.phys ==>
      r.phys[e].mass == w.phys[e].mass && r.phys[e].isStatic == w.phys[e].isStatic
  {
    if n == 0 then w
    else
      var s := Resolve(num, w, pairs, n - 1);
      if MirrorEarlier(pairs, n - 1) then s
      else ResolvePair(num, s, pairs[n - 1].0, pairs[n - 1].1)
  }

  // ---------------------------------------------------------------------
  // Integration and the whole tick
  // ---------------------------------------------------------------------

  /** The integration loop after it visited `view[..n]`: `pos += vel * time`. */
  function Integrate(view: seq<EntityId>, trans: map<EntityId, Trans>, phys: map<EntityId, Phys>,
                     time: real, n: nat): (r: map<EntityId, Trans>)
    requires n <= |view| && InMaps(view, trans, phys)
    ensures r.Keys == trans.Keys
  {
    if n == 0 then trans
    else
      var m := Integrate(view, trans, phys, time, n - 1);
      var e := view[n - 1];
      m[e := m[e].(pos := Add(m[e].pos, Scale(phys[e].vel, time)))]
  }

  /** The pairs the gravity pass records over the whole view. */
  function CollisionPairs(num: Numerics, view: seq<EntityId>, trans: map<EntityId, Trans>,
                          phys: map<EntityId, Phys>, time: real): (r: seq<EntityPair>)
    requires InMaps(view, trans, phys)
    ensures PairsIn(r, World(trans, phys))
  {
    var g := GravityPass(num, view, trans, phys, time, |view|);
    assert view[..|view|] == view;
    g.pairs
  }

  /** The state after the resolution phase of a tick of length `time`. */
  function Resolved(num: Numerics, view: seq<EntityId>, trans: map<EntityId, Trans>,
                    phys: map<EntityId, Phys>, time: real): (r: World)
    requires InMaps(view, trans, phys)
    ensures r.trans.Keys == trans.Keys && r.phys.Keys == phys.Keys
  {
    var g := GravityPass(num, view, trans, phys, time, |view|);
    var pairs := CollisionPairs(num, view, trans, phys, time);
    Resolve(num, World(trans, g.phys), pairs, |pairs|)
  }

  /**
   * One tick: nothing happens for a step at or below MIN_TICK_TIME; otherwise
   * gravity changes velocities, then collisions are resolved, then positions
   * advance by the resulting velocities.
   */
  function Tick(num: Numerics, view: seq<EntityId>, trans: map<EntityId, Trans>,
                phys: map<EntityId, Phys>, deltaTime: real): World
    requires InMaps(view, trans, phys)
  {
    if deltaTime <= MIN_TICK_TIME then World(trans, phys)
    else
      var w := Resolved(num, view, trans, phys, deltaTime);
      World(Integrate(view, w.trans, w.phys, deltaTime, |view|), w.phys)
  }
}
