/** The value types of GGScene.h that the physics bindings read and write. */
module Scene {

  /** An entity identifier of the registry (`entt::entity`). */
  type EntityId = nat

  /** Position and rotation of an entity; the angle is in degrees. */
  datatype Transform2D = Transform2D(x: real, y: real, angle: real)

  /** The default constructor of Transform2D. */
  function DefaultTransform(): (t: Transform2D)
    ensures t.x == 0.0 && t.y == 0.0 && t.angle == 0.0
  {
    Transform2D(0.0, 0.0, 0.0)
  }

  /** The three-argument constructor of Transform2D: it stores its arguments unchanged. */
  function MakeTransform(x: real, y: real, angle: real): (t: Transform2D)
    ensures t.x == x && t.y == y && t.angle == angle
  {
    Transform2D(x, y, angle)
  }

  /**
   * The handle scripts hold for an entity. `reg` and `list` are pointers in the
   * program; here they are opaque identities.
   */
  datatype GGEntity = GGEntity(reg: nat, list: nat, e: EntityId)

  /** `GGEntity::operator==`: two handles are equal when they name the same entity. */
  predicate SameEntity(a: GGEntity, b: GGEntity): (same: bool)
    ensures same <==> a.e == b.e
  {
    a.e == b.e
  }

  /** Handle equality looks only at the entity: it is an equivalence that ignores both pointers. */
  lemma SameEntityIgnoresPointers(a: GGEntity, b: GGEntity, c: GGEntity)
    ensures SameEntity(a, b) <==> a.e == b.e
    ensures SameEntity(a, a.(reg := b.reg, list := b.list))
    ensures SameEntity(a, b) ==> SameEntity(b, a)
    ensures SameEntity(a, b) && SameEntity(b, c) ==> SameEntity(a, c)
  {
  }
}
