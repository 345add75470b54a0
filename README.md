# Physics bindings of the GG scene engine, modelled in Dafny

The scene engine hands 2D physics to one of two plug-in systems, one built on
Chipmunk and one on Box2D. Both wrap the same bookkeeping around their engine:

- a fixed-timestep accumulator that turns frame time into 16 ms physics steps,
  clamped to a single step after a frame of more than 100 ms;
- a component that reads an entity's JSON configuration (body type, numeric
  fields with defaults, flat float arrays cut into shape tuples) and creates
  the engine body and its shapes;
- a write-back pass that walks the engine's bodies and copies each body's
  position and angle into the entity's `Transform2D`;
- small state surfaces: Box2D's `scale-factor` setting, and Chipmunk's
  scripting operations `addVelocity` and `setVelocity`.

The physics engine is an abstract world: a sequence of body records. A step is
a function parameter `advance` that the model does not look inside. The entity
registry is a class holding two maps: entity to `Transform2D`, and entity to
the binding's physics component. Frame time is in real milliseconds.

Modules:

- `Scene`: `Transform2D` and `GGEntity` from GGScene.h.
- `Interfaces`: the default behaviours of `SystemInterface` and
  `ComponentInterface`.
- `Ecs`: the registry operations the bindings use.
- `Config`: JSON values and the field readers.
- `Tuples`: cutting a flat array into fixed-arity tuples, and dividing every
  element by a factor.
- `Timestep`: the accumulator, and the step and sync traces of each binding.
- `Engine`: vectors and the user-data tag.
- `Chipmunk` and `Box2D`: the two bindings.

Each system class keeps a ghost `trace` of `Stepped` and `Synced` events.
`Update` states the trace it appends. Two lemmas then prove the difference
between the bindings:

- Chipmunk syncs after every step.
- Box2D syncs once per frame, even when no step ran.

A body's user-data tag is `EncodeTag(e)`, which is null exactly for entity 0.
The bindings decode it differently:

- Chipmunk reads a null tag as entity 0.
- Box2D skips a body with a null tag.

Box2D's body list starts at the newest body. The model keeps bodies in creation
order and walks them from the last index down. So when several bodies carry the
same entity, the oldest one's transform is the one left in the registry.

## Model

| member | source | states |
|---|---|---|
| Scene.DefaultTransform | GGScene.h:50 | a default-constructed transform is (0, 0, 0) |
| Scene.MakeTransform | GGScene.h:51 | the three-argument constructor stores x, y and angle exactly as given |
| Scene.SameEntity | GGScene.h:24-26 | `operator==` holds exactly when the two handles name the same entity |
| Scene.SameEntityIgnoresPointers | GGScene.h:24-26 | handle equality holds exactly when the entity ids agree, ignores both pointers, and is symmetric and transitive |
| Interfaces.DefaultUpdate | GGScene.h:110 | the default system update leaves the system's state unchanged |
| Interfaces.DefaultSetting | GGScene.h:112 | the default setting hook ignores every key and value |
| Interfaces.DefaultAdd | GGScene.h:119 | the default component `add` leaves the registry's components unchanged |
| Interfaces.DefaultCreateInstance | GGScene.h:120 | the default `create_instance` answers false |
| Ecs.Registry.AssignOrReplaceTransform | ChipmunkSystem.cpp:13 | `assign_or_replace<Transform2D>` maps the entity to the new transform and leaves the components alone |
| Ecs.Registry.ReplaceTransform | Box2DSystem.cpp:122 | `replace<Transform2D>` applies only to an entity that already has a transform, and overwrites it |
| Ecs.Registry.AssignComponent | Box2DSystem.cpp:89 | `assign<B2DPhysics>` adds the component for an entity that has none |
| Ecs.Registry.AssignOrReplaceComponent | ChipmunkSystem.cpp:138 | `assign_or_replace<Phys2D>` maps the entity to the component whether or not it had one |
| Ecs.Registry.ReplaceComponent | Box2DSystem.cpp:25 | writing the body back into the stored component replaces that entity's component only |
| Config.AsFloats | ChipmunkSystem.cpp:76 | converting a JSON array to floats succeeds exactly when every element is a number, and keeps length and values |
| Config.ReadArray | ChipmunkSystem.cpp:74-76 | a field that is not an array reads as absent; an array with a non-number element is an error naming the field; otherwise its numbers |
| Config.NumberOr | Box2DSystem.cpp:45-47 | a numeric field gives its value, and anything else gives the default |
| Config.KindCode | ChipmunkSystem.cpp:52-72 | case-sensitive `type` mapping shared by both bindings (Box2DSystem.cpp:48-57): "static" gives 1, "kinematic" gives 2, and anything else gives 0 (both directions) |
| Tuples.Chunks | ChipmunkSystem.cpp:80 | a flat array cut into `k`-tuples gives `len / k` tuples of exactly `k` values |
| Tuples.ChunkAt | ChipmunkSystem.cpp:82-84 | tuple `i` is the slice at `i*k .. i*k+k`, so trailing partial tuples are ignored |
| Tuples.Scaled | Box2DSystem.cpp:70 | every element divided by the factor: each result times the factor is the original |
| Tuples.DivideAll | Box2DSystem.cpp:70 | the in-place `for_each` division leaves the array equal to the scaled original |
| Engine.EncodeTag | ChipmunkSystem.cpp:137 | the user-data tag is null exactly for entity 0, and otherwise holds the entity |
| Timestep.Drain | ChipmunkSystem.cpp:26-31 | the 16 ms loop removes 16 ms per step; the remainder is below 16 ms, non-negative for a non-negative start, and no step runs below 16 ms |
| Timestep.DrainUnfold | ChipmunkSystem.cpp:26-30 | one pass of the loop from at least 16 ms runs one step more than the loop from 16 ms less, with the same remainder |
| Timestep.DrainIsFloor | ChipmunkSystem.cpp:26-31 | the 16 ms loop runs `floor(acc / 16)` times |
| Timestep.Plan | ChipmunkSystem.cpp:19-31 | one `update` (the same rule at Box2DSystem.cpp:96-106): the remainder stays below 16 ms and is non-negative for a non-negative total; over 100 ms it is exactly one step and a zero accumulator |
| Timestep.PlanClamped | ChipmunkSystem.cpp:19-26 | over 100 ms accumulated: exactly one step, the accumulator ends at 0, and the loop then runs zero times |
| Timestep.PlanUnclamped | ChipmunkSystem.cpp:19-31 | at most 100 ms accumulated: `floor(acc/16)` steps, remainder `acc mod 16`, at most 6 steps |
| Timestep.PlanBounded | Box2DSystem.cpp:96-108 | with non-negative times, the accumulator ends in [0, 16), at most 6 steps run, and a step runs exactly when at least 16 ms accumulated |
| Timestep.NoDrift | ChipmunkSystem.cpp:19-31 | over frames that never clamp, steps times 16 plus the final remainder equals the start plus all frame times |
| Timestep.CountAppend | ChipmunkSystem.cpp:23-29 | event counts of a trace add up over concatenation |
| Timestep.RepeatCompose | ChipmunkSystem.cpp:20-31 | the events of the clamped step followed by those of the loop are the events of all the frame's steps |
| Timestep.ChipmunkSyncsEveryStep | ChipmunkSystem.cpp:23-24 | Chipmunk's trace for `n` steps has `n` steps and `n` syncs, each step immediately followed by its sync |
| Timestep.Box2DSyncsOnce | Box2DSystem.cpp:96-123 | Box2D's trace for `n` steps has `n` steps, then exactly one sync, even when `n` is 0 |
| Timestep.RepeatSteps | Box2DSystem.cpp:103-107 | the stepping loop contributes `n` step events and no sync |
| Chipmunk.Segments | ChipmunkSystem.cpp:79-80 | `segments` gives one tuple per complete group of 6 values |
| Chipmunk.Circles | ChipmunkSystem.cpp:91-92 | `circles` gives one tuple per complete group of 5 values |
| Chipmunk.SegmentAt | ChipmunkSystem.cpp:80-84 | segment `i` has mass `6i`, friction `6i+1`, end `a` at `6i+2`, `6i+3` and end `b` at `6i+4`, `6i+5` |
| Chipmunk.CircleAt | ChipmunkSystem.cpp:127-132 | circle `i` has mass `5i`, friction `5i+1`, centre at `5i+2`, `5i+3` and radius `5i+4` |
| Chipmunk.ReadBlueprint | ChipmunkSystem.cpp:52-107 | the configuration as `create_instance` reads it: the kind is the `type` mapping (0..2), and the only failures are conversion errors of `segments`, `circles` or `mass` |
| Chipmunk.SumSegmentMasses | ChipmunkSystem.cpp:80-85 | the segment loop's running total is the sum of the segment masses |
| Chipmunk.SumCircleMasses | ChipmunkSystem.cpp:92-96 | the circle loop's running total is the sum of the circle masses |
| Chipmunk.BlueprintMass | ChipmunkSystem.cpp:84-107 | the kind and both arrays are those of the configuration; a dynamic body's mass is the `mass` field when present, otherwise the sum of the configuration's segment and circle masses |
| Chipmunk.BlueprintFails | ChipmunkSystem.cpp:76-106 | reading fails exactly when an array holds a non-number, or a dynamic body's `mass` field is present but not a number |
| Chipmunk.ReadConfig | ChipmunkSystem.cpp:52-107 | the reading half of `create_instance` (type, arrays, mass loops, explicit mass) yields exactly the blueprint the configuration describes, or its conversion error |
| Chipmunk.SegmentShapes | ChipmunkSystem.cpp:117-125 | one segment shape per segment tuple |
| Chipmunk.CircleShapes | ChipmunkSystem.cpp:127-133 | one circle shape per circle tuple |
| Chipmunk.AttachedShapesAt | ChipmunkSystem.cpp:117-133 | segments are attached before circles, all to the same body, each with its own tuple's friction and geometry |
| Chipmunk.SegmentShapeAt | ChipmunkSystem.cpp:117-125 | shape `i` of the segment pass is segment `i` on the owner with its friction |
| Chipmunk.CircleShapeAt | ChipmunkSystem.cpp:127-133 | shape `i` of the circle pass is circle `i` on the owner with its radius, centre and friction |
| Chipmunk.PlacedBody | ChipmunkSystem.cpp:109-114 | a new dynamic body sits at the transform's position with the angle in radians, zero velocity and no tag |
| Chipmunk.TagEntity | ChipmunkSystem.cpp:8-9 | a tag reads back as its entity, and a null tag as entity 0 |
| Chipmunk.TagRoundTrip | ChipmunkSystem.cpp:9 | decoding the tag of entity `e` gives `e` back, entity 0 included |
| Chipmunk.SyncedTransform | ChipmunkSystem.cpp:10-12 | write-back uses the unscaled position and the angle in degrees |
| Chipmunk.SyncAll | ChipmunkSystem.cpp:6-13 | one sync pass over the bodies in order: no transform is removed, and every body's decoded entity ends with a transform |
| Chipmunk.SyncAllKeys | ChipmunkSystem.cpp:13 | after a pass, the entities with transforms are the old ones plus every body's decoded entity; assign-or-replace creates missing transforms |
| Chipmunk.SyncAllUntouched | ChipmunkSystem.cpp:13 | an entity no body decodes to keeps its transform, or its absence |
| Chipmunk.SyncAllLastWins | ChipmunkSystem.cpp:13 | each body's entity ends with the transform of the last body visited that decodes to it |
| Chipmunk.CreateThenSync | ChipmunkSystem.cpp:109-114 | a dynamic body created at an entity's transform, synced with no step, gives back that transform |
| Chipmunk.Run | ChipmunkSystem.cpp:26-31 | `n` step-and-sync rounds: a step that keeps the number of bodies keeps it over all rounds, and no transform is removed |
| Chipmunk.RunCompose | ChipmunkSystem.cpp:20-31 | `a` step-and-sync rounds followed by `b` more are `a + b` rounds |
| Chipmunk.RunUnfold | ChipmunkSystem.cpp:28-29 | one more round steps the last round's bodies and syncs them into its transforms, and adds one step and one sync to the trace |
| Chipmunk.RunShowsFinalBodies | ChipmunkSystem.cpp:26-31 | after one or more step-and-sync rounds, the registry shows the last round's bodies, and zero rounds leave it alone |
| Chipmunk.BodyOf | ChipmunkSystem.cpp:153-155 | a handle reaches a body exactly when it is not null and its entity has `Phys2D` (line 163 alike), and then the body `Phys2D` names |
| Chipmunk.VelocityAdded | ChipmunkSystem.cpp:151-158 | the target's velocity becomes the old one plus `vel`, every other body is left as it was, and nothing changes without a target |
| Chipmunk.VelocitySet | ChipmunkSystem.cpp:160-167 | the target's velocity becomes `vel`, every other body is left as it was, and nothing changes without a target |
| Chipmunk.AddVelocityAccumulates | ChipmunkSystem.cpp:156 | two velocity additions equal one addition of their sum |
| Chipmunk.SetVelocityOverrides | ChipmunkSystem.cpp:165 | a set overrides any earlier add or set; the target ends with exactly `vel`, no other body changes, and without a target nothing changes |
| Chipmunk.ChipmunkSystem.constructor | ChipmunkSystem.cpp:36-41 | a new system has an empty world and an accumulator at 0 |
| Chipmunk.ChipmunkSystem.SyncBodies | ChipmunkSystem.cpp:6-15 | `cpSpaceEachBody(update_body)` leaves the transforms equal to the assign-or-replace fold over all bodies |
| Chipmunk.ChipmunkSystem.Update | ChipmunkSystem.cpp:17-34 | the accumulator ends at the planned remainder; the world and transforms are the planned number of step-and-sync rounds; the trace gains one sync after each step; with a step that keeps the number of bodies, every `Phys2D` still names a body |
| Chipmunk.ChipmunkSystem.StepAndSync | ChipmunkSystem.cpp:28-29 | one step, then one full sync pass |
| Chipmunk.ChipmunkSystem.DrainSteps | ChipmunkSystem.cpp:26-31 | the 16 ms loop leaves the remainder, runs as many step-and-sync rounds as whole 16 ms units, and records a sync after each step |
| Chipmunk.ChipmunkSystem.AddBody | ChipmunkSystem.cpp:109-110 | `cpBodyNew` and `cpSpaceAddBody` append exactly one body and return its index |
| Chipmunk.ChipmunkSystem.SetTag | ChipmunkSystem.cpp:137 | `cpBodySetUserData` changes only that body's tag, to the entity's encoding |
| Chipmunk.ChipmunkSystem.AttachSegments | ChipmunkSystem.cpp:117-125 | the segment loop appends exactly the segment shapes of the array to the space |
| Chipmunk.ChipmunkSystem.AttachCircles | ChipmunkSystem.cpp:127-133 | the circle loop appends exactly the circle shapes of the array to the space |
| Chipmunk.ChipmunkSystem.AddVelocity | ChipmunkSystem.cpp:151-158 | the entity's body gains `vel`; nothing happens for a null handle or an entity without a body |
| Chipmunk.ChipmunkSystem.SetVelocity | ChipmunkSystem.cpp:160-167 | the entity's body's velocity becomes `vel`; nothing happens for a null handle or an entity without a body |
| Chipmunk.Physics2DComponent.CreateInstance | ChipmunkSystem.cpp:50-144 | returns true. Static and kinematic: shapes go on the space's static body, with no tag and no component. Dynamic: one new body placed at the transform (or the origin) and tagged, its shapes, and `Phys2D` assigned. A conversion error changes nothing. |
| Chipmunk.Physics2DComponent.Instantiate | ChipmunkSystem.cpp:99-141 | static and kinematic shapes go on the static body with nothing recorded; a dynamic entity gets one body at its transform or the origin, its shapes, a tag and `Phys2D` |
| Box2D.Vertices | Box2DSystem.cpp:73 | `len / 2` vertices |
| Box2D.CircleList | Box2DSystem.cpp:79 | one circle per complete triple |
| Box2D.AddDefaults | Box2DSystem.cpp:45-57 | friction 1.0, restitution 0.3 and mass 1.0 unless the field is a number; kind from the `type` field; no body yet |
| Box2D.AddShapeOrder | Box2DSystem.cpp:59-87 | shapes are a box if `box` is an array, then a polygon if `polygon` is, then one circle per complete triple, in that order |
| Box2D.BoxGeometry | Box2DSystem.cpp:61-63 | the box's half-extents are `(w/2)/factor` and `(h/2)/factor` |
| Box2D.PolygonVertexAt | Box2DSystem.cpp:69-73 | vertex `i` is the coordinate pair at `2i` divided by the factor |
| Box2D.CircleAt | Box2DSystem.cpp:79-85 | circle `i` has centre and radius from the triple at `3i`, divided by the factor |
| Box2D.DynamicBoxScenario | Box2DSystem.cpp:43-90 | a dynamic `box: [2, 2]` at factor 30 reads as one box of half-extent 1/30 with the default numbers |
| Box2D.ReadPhysics | Box2DSystem.cpp:42-89 | what `add` records: it fails exactly on a conversion error in `box`, `polygon` or `circles`, or a `box` with fewer than two values, and with no other error |
| Box2D.AppendCircles | Box2DSystem.cpp:79-85 | the circle loop appends exactly one circle per complete triple |
| Box2D.DividedCopy | Box2DSystem.cpp:69-70 | the array read from the configuration, divided element by element by the factor |
| Box2D.KindOf | Box2DSystem.cpp:17-22 | kind 0 is dynamic and 2 kinematic (both directions); anything else keeps the static default of `b2BodyDef` |
| Box2D.Fixtures | Box2DSystem.cpp:27-35 | one fixture per stored shape, in order, each with density 1 and the component's friction and restitution |
| Box2D.NewBody | Box2DSystem.cpp:11-37 | the body's position times the factor is the transform's, the angle is in radians, it is tagged with the entity whatever its kind, with one fixture per shape |
| Box2D.SyncedTransform | Box2DSystem.cpp:120-122 | write-back multiplies the position by `scale_factor` and converts the angle to degrees |
| Box2D.SyncBody | Box2DSystem.cpp:112-122 | one node of the walk: a null tag or an entity without a transform changes nothing; otherwise only that entity's transform is replaced, by the body's |
| Box2D.SyncList | Box2DSystem.cpp:108-123 | the walk over the body list from the newest body down never creates or removes a transform |
| Box2D.SyncUntouched | Box2DSystem.cpp:110-123 | an entity that no body is tagged with keeps its transform |
| Box2D.SyncOldestWins | Box2DSystem.cpp:110-123 | an entity with a transform ends with the transform of the oldest body tagged with it |
| Box2D.EntityZeroNeverSynced | Box2DSystem.cpp:110-115 | a body made for entity 0 has a null tag (line 23) and changes nothing in the pass |
| Box2D.CreateThenSync | Box2DSystem.cpp:14-15 | create and then sync (lines 120-122) with no step and the same factor gives back the entity's x, y and angle |
| Box2D.SyncUndoesCreate | Box2DSystem.cpp:14-15 | writing back a fresh body at the same factor restores the exact transform it was created from (lines 120-122 undo lines 14-15) |
| Box2D.AdvancedCompose | Box2DSystem.cpp:97-106 | `a` world steps followed by `b` more are `a + b` steps |
| Box2D.SettingApplied | Box2DSystem.cpp:128-139 | any key other than "scale-factor", or a string value, leaves the factor as it was |
| Box2D.SettingRules | Box2DSystem.cpp:128-140 | "scale-factor" with an int stores it as a float, and with a float stores the float; a string or another key changes nothing; repeating a call changes nothing more |
| Box2D.Box2DSystem.constructor | Box2DSystem.cpp:148-151 | a new system has an accumulator at 0, scale factor 30, and no bodies |
| Box2D.Box2DSystem.SyncBodies | Box2DSystem.cpp:110-123 | the body-list walk leaves the transforms equal to the newest-first replace fold over all bodies |
| Box2D.Box2DSystem.StepWorld | Box2DSystem.cpp:104 | one world step |
| Box2D.Box2DSystem.StepLoop | Box2DSystem.cpp:102-106 | the 16 ms loop leaves the remainder and runs one world step per whole 16 ms, with no write-back |
| Box2D.Box2DSystem.Update | Box2DSystem.cpp:94-126 | the accumulator ends at the planned remainder; the world has the planned number of steps; then exactly one write-back pass at the current factor |
| Box2D.Box2DSystem.Setting | Box2DSystem.cpp:128-140 | the new scale factor is the setting rule applied to the old one; nothing else changes |
| Box2D.Box2DComponent.constructor | Box2DSystem.cpp:144 | the component refers to its system |
| Box2D.Box2DComponent.Add | Box2DSystem.cpp:42-92 | on success assigns exactly the component the configuration reads to; on a conversion error or a box with fewer than two values nothing is assigned |
| Box2D.Box2DComponent.CreateInstance | Box2DSystem.cpp:9-40 | returns true; appends the body for the stored component at the entity's transform with one fixture per shape (density 1, the component's friction and restitution); records that body in the component |

## Left out

- Physics solving: `cpSpaceStep`, `b2World::Step`, gravity and the solver iteration counts. A step is the opaque function `advance`. Where a promise needs the number of bodies kept, as `cpSpaceStep` does, the contract states that condition on `advance`.
- Moment of inertia: `cpMomentForSegment`, `cpMomentForCircle` and the moment passed to `cpBodyNew` are not modelled. Two observations about ChipmunkSystem.cpp:
  - The moment functions receive the running total mass (`total_mass += ...`), not the shape's own mass (lines 84 and 95).
  - Line 95 reads the circle offset from values 3 and 4 of the tuple, while attachment at line 129 reads the centre from values 2 and 3.
- `b2PolygonShape::Set` and `SetAsBox` internals: the model records the requested geometry. It ignores convex-hull reordering and the vertex-count limits Box2D asserts on.
- Float rounding: lengths, times and angles are reals. π is the rational constant each file writes: 3.1415926 in ChipmunkSystem.cpp and 3.14159265 in Box2DSystem.cpp. The `float` casts, `chrono` float durations and the 1/60 s step size are not modelled.
- Pointer reinterpretation: `(cpDataPointer)E` and `(void*)E` are modelled as `Option<EntityId>`, which is null exactly for entity 0. Body and shape pointers are indices into the world's sequences.
- Scripting and registration: the Lua bindings (`init_scripting`), `OutputDebugStringA`, `register_components` and `REGISTER_SYSTEM`.
- Everything else in GGScene.h: scene loading, `async`, locks, atomic progress counters, resources, and the begin and render lists.
- Memory ownership: shapes allocated with `new` are never freed, and bodies outlive their entities.
- JSON library details:
  - Booleans and nulls are plain JSON values. The JSON library converts `true` and `false` to 1.0 and 0.0 under `get<float>()`. The model instead treats a boolean where a number is read, in a field or in an array, as a conversion error. For example, `mass: true` on a dynamic Chipmunk body is `NotANumber("mass")` here, where the program uses mass 1.0.
  - `operator[]` inserting a null for a missing key has no effect the bindings can observe.
  - A failed `get<float>` is modelled as an error result that changes nothing. Every such throw happens before the registry or the world is changed.
- Box2D.Box2DComponent.Add: a `box` array with fewer than two values makes the code read past the vector's end, which is undefined behaviour. The model reports `TooFewValues` instead.
- Box2D.Box2DComponent.Add: requires that the entity has no B2DPhysics yet, as `assign` does.
- Box2D.Box2DComponent.Add and Box2D.Box2DComponent.CreateInstance: require a non-zero scale factor, since the geometry is divided by it. `factor()`, declared in Box2DSystem.h, is not part of this model; it is taken to return the system's `scale_factor`.
- Box2D.Box2DComponent.CreateInstance: requires the entity to carry both B2DPhysics and Transform2D, as `reg.get` does.
- Chipmunk.ChipmunkSystem.constructor: the initial value of `step` is set in ChipmunkSystem.h, which is not part of this model. It is taken to be 0.
- Chipmunk.ChipmunkSystem.AddVelocity and Chipmunk.ChipmunkSystem.SetVelocity: require every recorded `Phys2D` to name a body of the space, as a `cpBody*` always does. `create_instance` keeps this. `update` keeps it whenever `advance` keeps the number of bodies, which `cpSpaceStep` does.
- `total_shapes` in `Physics2DComponent::create_instance` is written but never read. It is not modelled.
- B2DPhysics `mass` is stored but never read by the Box2D binding. It is kept in the record and has no effect.
