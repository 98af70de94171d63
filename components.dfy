/**
 * The component records of the entity store and the store itself.
 *
 * The store (an entt registry in the original) is a class holding one map
 * per component type, keyed by entity identifier. A view over entities that
 * carry a given set of components is a sequence of identifiers in
 * iteration order.
 */
module Components {
  import opened Vectors

  /** An entity handle (`entt::entity`). */
  type EntityId = nat

  /** `component::trans`: position, rotation and scale of an entity. */
  datatype Trans = Trans(pos: Vec3, rot: Quat, scale: Vec3)

  /**
   * `component::phys`: mass, velocity and the static flag. The declaration of
   * the original record lacks the flag, but the physics code reads it, so the
   * model carries it.
   */
  datatype Phys = Phys(mass: real, vel: Vec3, isStatic: bool)

  /**
   * The particle component: a queue of past positions (front = oldest =
   * index 0) and the scale the particle is drawn with.
   */
  datatype Particle = Particle(trail: seq<Vec3>, scale: Vec3)

  /** A mesh vertex. */
  datatype Vertex = Vertex(pos: Vec3, normal: Vec3, uv: Vec2)

  /** A pair of entities found overlapping, in the order they were recorded. */
  type EntityPair = (EntityId, EntityId)

  /** No entity occurs twice in a view. */
  predicate Distinct(view: seq<EntityId>)
  {
    forall i, j :: 0 <= i < j < |view| ==> view[i] != view[j]
  }

  /** Every entity of the view carries a transform and a physics record. */
  predicate InMaps(view: seq<EntityId>, trans: map<EntityId, Trans>, phys: map<EntityId, Phys>)
  {
    forall k :: 0 <= k < |view| ==> view[k] in trans && view[k] in phys
  }

  /** The entity store: one map per component pool. */
  class Registry {
    var trans: map<EntityId, Trans>
    var phys: map<EntityId, Phys>
    var particles: map<EntityId, Particle>

    constructor ()
      ensures trans == map[] && phys == map[] && particles == map[]
    {
      trans, phys, particles := map[], map[], map[];
    }
  }
}
