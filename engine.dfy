/** What both bindings hand to their engine: vectors and the entity tag on a body. */
module Engine {
  import opened Wrappers
  import opened Scene

  datatype Vec2 = Vec2(x: real, y: real)

  const Origin := Vec2(0.0, 0.0)

  function Plus(a: Vec2, b: Vec2): Vec2
  {
    Vec2(a.x + b.x, a.y + b.y)
  }

  /**
   * The body's user-data slot holds the entity identifier reinterpreted as a
   * pointer, so entity 0 becomes the null pointer.
   */
  function EncodeTag(e: EntityId): (tag: Option<EntityId>)
    ensures tag.None? <==> e == 0
    ensures tag.Some? ==> tag.value == e
  {
    if e == 0 then None else Some(e)
  }
}
