/**
 * Properties of the physics tick of `src/physics.h`, stated over the
 * specification functions of module PhysicsSpec (which the methods of
 * module Physics are proved to implement).
 */
module PhysicsProps {
  import opened Vectors
  import opened Components
  import opened PhysicsSpec

  /** No entry of the list occurs twice. */
  predicate NoDuplicates(pairs: seq<EntityPair>)
  {
    forall a, b :: 0 <= a < b < |pairs| ==> pairs[a] != pairs[b]
  }

  /** `p` and `q` name the same two entities, in either order. */
  predicate Unordered(p: EntityPair, q: EntityPair)
  {
    p == q || p == Mirror(q)
  }

  // ---------------------------------------------------------------------
  // Overlap test
  // ---------------------------------------------------------------------

  /** `isColliding` does not depend on the order of its arguments. */
  lemma IsCollidingSymmetric(s1: Trans, s2: Trans)
    ensures IsColliding(s1, s2) <==> IsColliding(s2, s1)
  {
    var d, e := Sub(s1.pos, s2.pos), Sub(s2.pos, s1.pos);
    assert e == Neg(d);
    assert DistSq(d) == DistSq(e);
    assert s1.scale.x + s2.scale.x == s2.scale.x + s1.scale.x;
  }

  // ---------------------------------------------------------------------
  // Pair recording
  // ---------------------------------------------------------------------

  /**
   * The inner loop for body `view[i]` records `(view[i], view[m])` exactly
   * for the visited indices `m` other than `i` whose body overlaps it.
   */
  lemma {:induction false} PairsFromMembers(view: seq<EntityId>, trans: map<EntityId, Trans>, i: nat, j: nat)
    requires i < |view| && j <= |view| && InTrans(view, trans)
    ensures forall p :: p in PairsFrom(view, trans, i, j) <==>
      exists m :: 0 <= m < j && m != i && p == (view[i], view[m]) && IsColliding(trans[view[i]], trans[view[m]])
  {
    if j > 0 {
      PairsFromMembers(view, trans, i, j - 1);
    }
  }

  /** In a view without repeated entities, the inner loop records no entry twice. */
  lemma {:induction false} PairsFromNoDuplicates(view: seq<EntityId>, trans: map<EntityId, Trans>, i: nat, j: nat)
    requires i < |view| && j <= |view| && InTrans(view, trans) && Distinct(view)
    ensures NoDuplicates(PairsFrom(view, trans, i, j))
  {
    if j > 0 {
      PairsFromNoDuplicates(view, trans, i, j - 1);
      var s := PairsFrom(view, trans, i, j - 1);
      forall k | 0 <= k < |s|
        ensures s[k].1 != view[j - 1]
      {
        var m :| 0 <= m < j - 1 && view[m] == s[k].1;
      }
    }
  }

  /**
   * Body `view[i]` is not static and `p` is `(view[i], view[m])` for some other
   * index `m` whose body overlaps it: the entries the outer iteration for
   * `view[i]` records.
   */
  predicate RecordedBy(view: seq<EntityId>, trans: map<EntityId, Trans>, phys: map<EntityId, Phys>,
                       i: nat, p: EntityPair)
    requires i < |view| && InMaps(view, trans, phys)
  {
    !phys[view[i]].isStatic &&
    exists m :: 0 <= m < |view| && m != i && p == (view[i], view[m]) && IsColliding(trans[view[i]], trans[view[m]])
  }

  /**
   * The pairs the gravity pass records after visiting `view[..n]`, defined
   * independently of the velocity updates: the inner loop's pairs of every
   * visited body that is not static, in visiting order.
   */
  function PassPairs(view: seq<EntityId>, trans: map<EntityId, Trans>, phys: map<EntityId, Phys>, n: nat): seq<EntityPair>
    requires n <= |view| && InMaps(view, trans, phys)
  {
    if n == 0 then []
    else
      PassPairs(view, trans, phys, n - 1) +
        (if phys[view[n - 1]].isStatic then [] else PairsFrom(view, trans, n - 1, |view|))
  }

  /** The list the gravity pass records does not depend on the velocities it writes. */
  lemma {:induction false} GravityPassPairs(num: Numerics, view: seq<EntityId>, trans: map<EntityId, Trans>,
                                            phys: map<EntityId, Phys>, time: real, n: nat)
    requires n <= |view| && InMaps(view, trans, phys)
    ensures GravityPass(num, view, trans, phys, time, n).pairs == PassPairs(view, trans, phys, n)
  {
    if n > 0 {
      GravityPassPairs(num, view, trans, phys, time, n - 1);
      GravityPassPairsStep(num, view, trans, phys, time, n - 1);
    }
  }

  /** One outer iteration appends the same pairs to both lists. */
  lemma GravityPassPairsStep(num: Numerics, view: seq<EntityId>, trans: map<EntityId, Trans>,
                             phys: map<EntityId, Phys>, time: real, k: nat)
    requires k < |view| && InMaps(view, trans, phys)
    requires GravityPass(num, view, trans, phys, time, k).pairs == PassPairs(view, trans, phys, k)
    ensures GravityPass(num, view, trans, phys, time, k + 1).pairs == PassPairs(view, trans, phys, k + 1)
  {
    var s := GravityPass(num, view, trans, phys, time, k);
    assert s.phys[view[k]].isStatic == phys[view[k]].isStatic;
  }

  /**
   * After the gravity pass visited `view[..n]`, the recorded list holds
   * `(view[i], view[m])` exactly when `i < n`, `m != i`, body `view[i]` is not
   * static, and the two bodies overlap.
   */
  lemma RecordedPairs(num: Numerics, view: seq<EntityId>, trans: map<EntityId, Trans>,
                      phys: map<EntityId, Phys>, time: real, n: nat)
    requires n <= |view| && InMaps(view, trans, phys)
    ensures forall p :: p in GravityPass(num, view, trans, phys, time, n).pairs <==>
      exists i :: 0 <= i < n && RecordedBy(view, trans, phys, i, p)
  {
    GravityPassPairs(num, view, trans, phys, time, n);
    PassPairsMembers(view, trans, phys, n);
  }

  lemma {:induction false} PassPairsMembers(view: seq<EntityId>, trans: map<EntityId, Trans>,
                                            phys: map<EntityId, Phys>, n: nat)
    requires n <= |view| && InMaps(view, trans, phys)
    ensures forall p :: p in PassPairs(view, trans, phys, n) <==>
      exists i :: 0 <= i < n && RecordedBy(view, trans, phys, i, p)
  {
    if n > 0 {
      PassPairsMembers(view, trans, phys, n - 1);
      PairsFromMembers(view, trans, n - 1, |view|);
      var prev := PassPairs(view, trans, phys, n - 1);
      var last := if phys[view[n - 1]].isStatic then [] else PairsFrom(view, trans, n - 1, |view|);
      assert PassPairs(view, trans, phys, n) == prev + last;
      forall p
        ensures p in prev + last <==> exists i :: 0 <= i < n && RecordedBy(view, trans, phys, i, p)
      {
        if p in last {
          assert RecordedBy(view, trans, phys, n - 1, p);
        } else if p in prev {
          var i :| 0 <= i < n - 1 && RecordedBy(view, trans, phys, i, p);
        }
        if exists i :: 0 <= i < n && RecordedBy(view, trans, phys, i, p) {
          var i :| 0 <= i < n && RecordedBy(view, trans, phys, i, p);
          if i < n - 1 {
            assert p in prev;
          } else {
            assert i == n - 1 && !phys[view[i]].isStatic;
            assert last == PairsFrom(view, trans, i, |view|);
            var m :| 0 <= m < |view| && m != i && p == (view[i], view[m]) && IsColliding(trans[view[i]], trans[view[m]]);
            assert p in PairsFrom(view, trans, i, |view|);
          }
        }
      }
    }
  }

  /** In a view without repeated entities, the gravity pass records no entry twice. */
  lemma RecordedPairsNoDuplicates(num: Numerics, view: seq<EntityId>, trans: map<EntityId, Trans>,
                                  phys: map<EntityId, Phys>, time: real, n: nat)
    requires n <= |view| && InMaps(view, trans, phys) && Distinct(view)
    ensures NoDuplicates(GravityPass(num, view, trans, phys, time, n).pairs)
  {
    GravityPassPairs(num, view, trans, phys, time, n);
    PassPairsNoDuplicates(view, trans, phys, n);
  }

  lemma {:induction false} PassPairsNoDuplicates(view: seq<EntityId>, trans: map<EntityId, Trans>,
                                                 phys: map<EntityId, Phys>, n: nat)
    requires n <= |view| && InMaps(view, trans, phys) && Distinct(view)
    ensures NoDuplicates(PassPairs(view, trans, phys, n))
    ensures forall k :: 0 <= k < |PassPairs(view, trans, phys, n)| ==> PassPairs(view, trans, phys, n)[k].0 in view[..n]
  {
    if n > 0 {
      PassPairsNoDuplicates(view, trans, phys, n - 1);
      PairsFromNoDuplicates(view, trans, n - 1, |view|);
      var s := PassPairs(view, trans, phys, n - 1);
      var e := view[n - 1];
      assert view[..n] == view[..n - 1] + [e];
      forall k | 0 <= k < |s|
        ensures s[k].0 != e
      {
        var m :| 0 <= m < n - 1 && view[m] == s[k].0;
      }
    }
  }

  /**
   * Every entry `(e1, e2)` of the list a tick records names two different
   * bodies of the view, `e1` is not static, and the two overlapped when the
   * entry was recorded. The list has no repeated entry.
   */
  lemma RecordedPairFacts(num: Numerics, view: seq<EntityId>, trans: map<EntityId, Trans>,
                          phys: map<EntityId, Phys>, time: real)
    requires InMaps(view, trans, phys) && Distinct(view)
    ensures NoDuplicates(CollisionPairs(num, view, trans, phys, time))
    ensures forall p :: p in CollisionPairs(num, view, trans, phys, time) ==>
      p.0 != p.1 && p.0 in view && p.1 in view && !phys[p.0].isStatic &&
      IsColliding(trans[p.0], trans[p.1])
  {
    RecordedPairs(num, view, trans, phys, time, |view|);
    RecordedPairsNoDuplicates(num, view, trans, phys, time, |view|);
    forall p | p in CollisionPairs(num, view, trans, phys, time)
      ensures p.0 != p.1 && p.0 in view && p.1 in view && !phys[p.0].isStatic &&
        IsColliding(trans[p.0], trans[p.1])
    {
      var i :| 0 <= i < |view| && RecordedBy(view, trans, phys, i, p);
      var m :| 0 <= m < |view| && m != i && p == (view[i], view[m]) && IsColliding(trans[view[i]], trans[view[m]]);
    }
  }

  /**
   * When neither body is static, an overlapping pair is recorded in both
   * orders; this is why the resolution loop deduplicates.
   */
  lemma MirrorRecorded(num: Numerics, view: seq<EntityId>, trans: map<EntityId, Trans>,
                       phys: map<EntityId, Phys>, time: real, p: EntityPair)
    requires InMaps(view, trans, phys)
    requires p in CollisionPairs(num, view, trans, phys, time)
    requires !phys[p.1].isStatic
    ensures Mirror(p) in CollisionPairs(num, view, trans, phys, time)
  {
    RecordedPairs(num, view, trans, phys, time, |view|);
    var i :| 0 <= i < |view| && RecordedBy(view, trans, phys, i, p);
    var m :| 0 <= m < |view| && m != i && p == (view[i], view[m]) && IsColliding(trans[view[i]], trans[view[m]]);
    IsCollidingSymmetric(trans[view[i]], trans[view[m]]);
    assert RecordedBy(view, trans, phys, m, Mirror(p));
  }

  // ---------------------------------------------------------------------
  // Deduplication
  // ---------------------------------------------------------------------

  /**
   * In a list without repeated entries, every recorded pair of bodies, in
   * whichever order it occurs, is resolved exactly once: some entry naming
   * the same two bodies is not skipped, and of two such entries the later
   * one is skipped.
   */
  lemma ResolvedExactlyOnce(pairs: seq<EntityPair>, k: nat)
    requires NoDuplicates(pairs) && k < |pairs|
    ensures exists k' :: 0 <= k' < |pairs| && Unordered(pairs[k'], pairs[k]) && !MirrorEarlier(pairs, k')
    ensures forall k1, k2 ::
      (0 <= k1 < k2 < |pairs| && Unordered(pairs[k1], pairs[k]) && Unordered(pairs[k2], pairs[k]))
      ==> MirrorEarlier(pairs, k2)
  {
    if MirrorEarlier(pairs, k) {
      var m :| 0 <= m < k && pairs[m] == Mirror(pairs[k]);
      forall m' | 0 <= m' < m
        ensures pairs[m'] != Mirror(pairs[m])
      {
        assert Mirror(pairs[m]) == pairs[k];
      }
      assert Unordered(pairs[m], pairs[k]);
    } else {
      assert Unordered(pairs[k], pairs[k]);
    }
    forall k1, k2 | 0 <= k1 < k2 < |pairs| && Unordered(pairs[k1], pairs[k]) && Unordered(pairs[k2], pairs[k])
      ensures MirrorEarlier(pairs, k2)
    {
      assert pairs[k1] != pairs[k2];
      assert pairs[k1] == Mirror(pairs[k2]);
    }
  }

  // ---------------------------------------------------------------------
  // enforcePosition and getImpactVel
  // ---------------------------------------------------------------------

  /**
   * When neither body is static, `enforcePosition` leaves the second body at
   * `dir * (r1 + r2) * 0.5` from the first: half the radius sum, so two
   * bodies it corrects still overlap when `dir` has unit length.
   */
  lemma EnforcedSeparation(num: Numerics, trans: map<EntityId, Trans>, e1: EntityId, e2: EntityId)
    requires e1 in trans && e2 in trans && e1 != e2
    ensures var r := EnforcedTrans(num, trans, e1, e2, false, false);
      var r1, r2 := trans[e1].scale.x, trans[e2].scale.x;
      r[e2].pos == Add(r[e1].pos, Scale(num.normalize(Sub(trans[e2].pos, trans[e1].pos)), (r1 + r2) * 0.5))
  {
    var t1, t2 := trans[e1], trans[e2];
    var dist := Sub(t2.pos, t1.pos);
    var centre := Add(t1.pos, Scale(dist, Div(t1.scale.x, t2.scale.x)));
    HalfSeparation(centre, num.normalize(dist), t1.scale.x, t2.scale.x);
  }

  /** `(c + d*r2*0.5) - (c - d*r1*0.5) == d * (r1 + r2) * 0.5`, component by component. */
  lemma HalfSeparation(c: Vec3, d: Vec3, r1: real, r2: real)
    ensures Add(c, Scale(Scale(d, r2), 0.5)) == Add(Sub(c, Scale(Scale(d, r1), 0.5)), Scale(d, (r1 + r2) * 0.5))
  {
    assert d.x * r2 * 0.5 == -(d.x * r1 * 0.5) + d.x * ((r1 + r2) * 0.5);
    assert d.y * r2 * 0.5 == -(d.y * r1 * 0.5) + d.y * ((r1 + r2) * 0.5);
    assert d.z * r2 * 0.5 == -(d.z * r1 * 0.5) + d.z * ((r1 + r2) * 0.5);
  }

  /**
   * A body hitting a static body bounces straight back: its velocity is
   * negated, and the static body keeps its transform and its physics record.
   */
  lemma BounceOffStatic(num: Numerics, w: World, e1: EntityId, e2: EntityId)
    requires PairIn(e1, e2, w) && e1 != e2
    requires !w.phys[e1].isStatic && w.phys[e2].isStatic
    ensures var r := ResolvePair(num, w, e1, e2);
      r.phys[e1] == w.phys[e1].(vel := Neg(w.phys[e1].vel)) &&
      r.phys[e2] == w.phys[e2] && r.trans[e2] == w.trans[e2]
  {
  }

  /**
   * When neither body is static, each impulse points against its own body's
   * heading (a non-positive multiple of its normalized velocity), and both
   * carry the same momentum `(f1 + f2) * 0.5`, where `fi` is speed times mass.
   */
  lemma ImpulseAgainstHeading(num: Numerics, p1: Phys, p2: Phys)
    requires !p1.isStatic && !p2.isStatic
    requires p1.mass > 0.0 && p2.mass > 0.0
    requires num.length(p1.vel) >= 0.0 && num.length(p2.vel) >= 0.0
    ensures var imp := GetImpactVel(num, p1, p2);
      var share := SharedMomentum(num, p1, p2);
      share >= 0.0 &&
      (exists c :: c <= 0.0 && imp.0 == Scale(num.normalize(p1.vel), c)) &&
      (exists c :: c <= 0.0 && imp.1 == Scale(num.normalize(p2.vel), c)) &&
      Scale(imp.0, p1.mass) == Scale(Neg(num.normalize(p1.vel)), share) &&
      Scale(imp.1, p2.mass) == Scale(Neg(num.normalize(p2.vel)), share)
  {
    var share := SharedMomentum(num, p1, p2);
    NonNegativeProduct(num.length(p1.vel), p1.mass);
    NonNegativeProduct(num.length(p2.vel), p2.mass);
    ScaledNeg(num.normalize(p1.vel), share, p1.mass);
    ScaledNeg(num.normalize(p2.vel), share, p2.mass);
  }

  lemma NonNegativeProduct(a: real, b: real)
    requires a >= 0.0 && b >= 0.0
    ensures a * b >= 0.0
  {
  }

  /** `(-n) * (f / m)` is `n * c` with `c <= 0`, and scaling it by `m` gives `(-n) * f`. */
  lemma ScaledNeg(n: Vec3, f: real, m: real)
    requires f >= 0.0 && m > 0.0
    ensures Scale(Neg(n), Div(f, m)) == Scale(n, -(f / m))
    ensures -(f / m) <= 0.0
    ensures Scale(Scale(Neg(n), Div(f, m)), m) == Scale(Neg(n), f)
  {
    var q := f / m;
    assert q * m == f;
    assert q >= 0.0;
    assert (-n.x * q) * m == -n.x * (q * m);
    assert (-n.y * q) * m == -n.y * (q * m);
    assert (-n.z * q) * m == -n.z * (q * m);
  }

  /**
   * Impulses are added to the velocities, not assigned: two bodies of equal
   * mass meeting with equal speeds (velocity = normalized velocity times
   * speed) both end with zero velocity.
   */
  lemma HeadOnEqualBodiesStop(num: Numerics, w: World, e1: EntityId, e2: EntityId)
    requires PairIn(e1, e2, w) && e1 != e2
    requires !w.phys[e1].isStatic && !w.phys[e2].isStatic
    requires w.phys[e1].mass == w.phys[e2].mass && w.phys[e1].mass > 0.0
    requires num.length(w.phys[e1].vel) == num.length(w.phys[e2].vel)
    requires Scale(num.normalize(w.phys[e1].vel), num.length(w.phys[e1].vel)) == w.phys[e1].vel
    requires Scale(num.normalize(w.phys[e2].vel), num.length(w.phys[e2].vel)) == w.phys[e2].vel
    ensures var r := ResolvePair(num, w, e1, e2);
      r.phys[e1].vel == Zero && r.phys[e2].vel == Zero
  {
    var p1, p2 := w.phys[e1], w.phys[e2];
    var m, len := p1.mass, num.length(p1.vel);
    assert Momentum(num, p2) == Momentum(num, p1);
    var share := SharedMomentum(num, p1, p2);
    assert share == len * m;
    DivMul(len, m);
    CancelHeading(num.normalize(p1.vel), len);
    CancelHeading(num.normalize(p2.vel), len);
    ResolvePairVelocities(num, w, e1, e2);
  }

  /** For two different bodies, each final velocity is the old one plus its impulse. */
  lemma ResolvePairVelocities(num: Numerics, w: World, e1: EntityId, e2: EntityId)
    requires PairIn(e1, e2, w) && e1 != e2
    ensures var r := ResolvePair(num, w, e1, e2);
      var imp := GetImpactVel(num, w.phys[e1], w.phys[e2]);
      r.phys[e1].vel == Add(w.phys[e1].vel, imp.0) && r.phys[e2].vel == Add(w.phys[e2].vel, imp.1)
  {
  }

  lemma DivMul(a: real, m: real)
    requires m != 0.0
    ensures Div(a * m, m) == a
  {
  }

  /** `n * len + (-n) * len` is the zero vector. */
  lemma CancelHeading(n: Vec3, len: real)
    ensures Add(Scale(n, len), Scale(Neg(n), len)) == Zero
  {
    assert n.x * len + (-n.x) * len == 0.0;
    assert n.y * len + (-n.y) * len == 0.0;
    assert n.z * len + (-n.z) * len == 0.0;
  }

  // ---------------------------------------------------------------------
  // Integration and the whole tick
  // ---------------------------------------------------------------------

  /**
   * In a view without repeated entities, integration moves every body of
   * the view by `vel * time`, touches nothing else of a transform, and leaves
   * entities outside the view alone.
   */
  lemma IntegrateMoves(view: seq<EntityId>, trans: map<EntityId, Trans>,
                       phys: map<EntityId, Phys>, time: real, n: nat)
    requires n <= |view| && InMaps(view, trans, phys) && Distinct(view)
    ensures var r := Integrate(view, trans, phys, time, n);
      (forall i :: 0 <= i < n ==>
        r[view[i]] == trans[view[i]].(pos := Add(trans[view[i]].pos, Scale(phys[view[i]].vel, time)))) &&
      (forall e :: e in trans && e !in view[..n] ==> r[e] == trans[e])
  {
    forall e | e in trans {
      IntegrateAt(view, trans, phys, time, n, e);
    }
    forall i | 0 <= i < n
      ensures view[i] in view[..n]
    {
      assert view[..n][i] == view[i];
    }
  }

  /** Integration seen from one entity: moved once if visited, untouched otherwise. */
  lemma {:induction false} IntegrateAt(view: seq<EntityId>, trans: map<EntityId, Trans>,
                                       phys: map<EntityId, Phys>, time: real, n: nat, e: EntityId)
    requires n <= |view| && InMaps(view, trans, phys) && Distinct(view) && e in trans
    ensures Integrate(view, trans, phys, time, n)[e] ==
      if e in view[..n] then trans[e].(pos := Add(trans[e].pos, Scale(phys[e].vel, time))) else trans[e]
  {
    if n > 0 {
      IntegrateAt(view, trans, phys, time, n - 1, e);
      assert view[..n] == view[..n - 1] + [view[n - 1]];
      if e == view[n - 1] {
        assert e !in view[..n - 1];
      }
    }
  }

  /**
   * Entries whose first body is not static and whose two bodies differ: what
   * the gravity pass records.
   */
  predicate DynamicFirst(pairs: seq<EntityPair>, phys: map<EntityId, Phys>)
  {
    forall k :: 0 <= k < |pairs| ==>
      pairs[k].0 in phys && !phys[pairs[k].0].isStatic && pairs[k].0 != pairs[k].1
  }

  /**
   * Resolving entries whose first body is dynamic never changes a static
   * body: neither its transform nor its physics record.
   */
  lemma ResolveKeepsStatic(num: Numerics, w: World, pairs: seq<EntityPair>, n: nat, e: EntityId)
    requires n <= |pairs| && PairsIn(pairs, w) && DynamicFirst(pairs, w.phys)
    requires e in w.trans && e in w.phys && w.phys[e].isStatic
    ensures Resolve(num, w, pairs, n).trans[e] == w.trans[e]
    ensures Resolve(num, w, pairs, n).phys[e] == w.phys[e]
  {
    var k := 0;
    while k < n
      invariant k <= n
      invariant Resolve(num, w, pairs, k).trans[e] == w.trans[e]
      invariant Resolve(num, w, pairs, k).phys[e] == w.phys[e]
    {
      ResolveStepKeepsStatic(num, w, pairs, k + 1, e);
      k := k + 1;
    }
  }

  /** One iteration of the resolution loop leaves a static body alone. */
  lemma ResolveStepKeepsStatic(num: Numerics, w: World, pairs: seq<EntityPair>, n: nat, e: EntityId)
    requires 0 < n <= |pairs| && PairsIn(pairs, w) && DynamicFirst(pairs, w.phys)
    requires e in w.trans && e in w.phys && w.phys[e].isStatic
    ensures Resolve(num, w, pairs, n).trans[e] == Resolve(num, w, pairs, n - 1).trans[e]
    ensures Resolve(num, w, pairs, n).phys[e] == Resolve(num, w, pairs, n - 1).phys[e]
  {
    var s := Resolve(num, w, pairs, n - 1);
    if !MirrorEarlier(pairs, n - 1) {
      ResolvePairKeepsStatic(num, s, pairs[n - 1].0, pairs[n - 1].1, e);
    }
  }

  /** One resolved entry with a dynamic first body leaves every static body alone. */
  lemma ResolvePairKeepsStatic(num: Numerics, s: World, e1: EntityId, e2: EntityId, e: EntityId)
    requires PairIn(e1, e2, s) && e1 != e2 && !s.phys[e1].isStatic
    requires e in s.trans && e in s.phys && s.phys[e].isStatic
    ensures ResolvePair(num, s, e1, e2).trans[e] == s.trans[e]
    ensures ResolvePair(num, s, e1, e2).phys[e] == s.phys[e]
  {
    if e == e2 {
      var imp := GetImpactVel(num, s.phys[e1], s.phys[e2]);
      assert imp.1 == Zero;
    }
  }

  /**
   * A static body of the view keeps its physics record through a tick, and
   * its position still advances by `vel * deltaTime`: the integration pass
   * does not skip static bodies.
   */
  lemma StaticBodyInTick(num: Numerics, view: seq<EntityId>, trans: map<EntityId, Trans>,
                         phys: map<EntityId, Phys>, deltaTime: real, i: nat)
    requires InMaps(view, trans, phys) && Distinct(view)
    requires i < |view| && phys[view[i]].isStatic && deltaTime > MIN_TICK_TIME
    ensures var r := Tick(num, view, trans, phys, deltaTime);
      r.phys[view[i]] == phys[view[i]] &&
      r.trans[view[i]] == trans[view[i]].(pos := Add(trans[view[i]].pos, Scale(phys[view[i]].vel, deltaTime)))
  {
    var e := view[i];
    var g := GravityPass(num, view, trans, phys, deltaTime, |view|);
    var pairs := CollisionPairs(num, view, trans, phys, deltaTime);
    RecordedPairFacts(num, view, trans, phys, deltaTime);
    var w := World(trans, g.phys);
    forall k | 0 <= k < |pairs|
      ensures pairs[k].0 in g.phys && !g.phys[pairs[k].0].isStatic && pairs[k].0 != pairs[k].1
    {
      assert pairs[k] in pairs;
    }
    ResolveKeepsStatic(num, w, pairs, |pairs|, e);
    var res := Resolved(num, view, trans, phys, deltaTime);
    IntegrateMoves(view, res.trans, res.phys, deltaTime, |view|);
  }

  /** A static body at rest stays where it is through a tick. */
  lemma RestingStaticBodyStays(num: Numerics, view: seq<EntityId>, trans: map<EntityId, Trans>,
                               phys: map<EntityId, Phys>, deltaTime: real, i: nat)
    requires InMaps(view, trans, phys) && Distinct(view)
    requires i < |view| && phys[view[i]].isStatic && phys[view[i]].vel == Zero
    ensures var r := Tick(num, view, trans, phys, deltaTime);
      r.trans[view[i]] == trans[view[i]] && r.phys[view[i]] == phys[view[i]]
  {
    if deltaTime > MIN_TICK_TIME {
      StaticBodyInTick(num, view, trans, phys, deltaTime, i);
      assert Add(trans[view[i]].pos, Scale(Zero, deltaTime)) == trans[view[i]].pos;
    }
  }
}
