/**
 * The entity registry the bindings consume, reduced to the two components they
 * touch: the Transform2D of every entity and one physics component type `C`.
 * `has<T>` and `get<T>` are membership and lookup in the maps.
 */
module Ecs {
  import opened Scene

  class Registry<C> {
    var transforms: map<EntityId, Transform2D>
    var components: map<EntityId, C>

    constructor ()
      ensures transforms == map[] && components == map[]
    {
      transforms := map[];
      components := map[];
    }

    /** `assign_or_replace<Transform2D>`: creates or overwrites. */
    method AssignOrReplaceTransform(e: EntityId, t: Transform2D)
      modifies this
      ensures transforms == old(transforms)[e := t]
      ensures components == old(components)
    {
      transforms := transforms[e := t];
    }

    /** `replace<Transform2D>`: the entity must already carry a transform. */
    method ReplaceTransform(e: EntityId, t: Transform2D)
      requires e in transforms
      modifies this
      ensures transforms == old(transforms)[e := t]
      ensures components == old(components)
    {
      transforms := transforms[e := t];
    }

    /** `assign<C>`: the entity must not carry the component yet. */
    method AssignComponent(e: EntityId, c: C)
      requires e !in components
      modifies this
      ensures components == old(components)[e := c]
      ensures transforms == old(transforms)
    {
      components := components[e := c];
    }

    /** `assign_or_replace<C>`: creates or overwrites. */
    method AssignOrReplaceComponent(e: EntityId, c: C)
      modifies this
      ensures components == old(components)[e := c]
      ensures transforms == old(transforms)
    {
      components := components[e := c];
    }

    /** A write through a reference obtained from `get<C>`. */
    method ReplaceComponent(e: EntityId, c: C)
      requires e in components
      modifies this
      ensures components == old(components)[e := c]
      ensures transforms == old(transforms)
    {
      components := components[e := c];
    }
  }
}
