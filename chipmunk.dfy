/**
 * The Chipmunk binding (ChipmunkSystem.cpp): the space and its accumulator, the
 * component factory that builds bodies and shapes from configuration, the
 * per-step write-back into the registry, and the two velocity operations
 * exposed to scripts.
 */
module Chipmunk {
  import opened Wrappers
  import opened Scene
  import opened Engine
  import opened Config
  import opened Tuples
  import opened Timestep
  import opened Ecs

  /** The value of pi both angle conversions of this binding use. */
  const Pi: real := 3.1415926

  /** A body added to the space. `tag` is its user-data slot. */
  datatype CpBody = CpBody(mass: real, position: Vec2, angle: real, velocity: Vec2, tag: Option<EntityId>)

  /** The body a shape is attached to: the space's shared static body, or a body added to the space. */
  datatype BodyRef = SpaceStaticBody | SpaceBody(index: nat)

  /** A shape added to the space (segments have radius 0). */
  datatype CpShape =
    | SegmentShape(body: BodyRef, a: Vec2, b: Vec2, friction: real)
    | CircleShape(body: BodyRef, center: Vec2, radius: real, friction: real)

  /** The component that links an entity to its body. */
  datatype Phys2D = Phys2D(body: nat)

  // ---------------------------------------------------------------------------
  // Configuration tuples

  /** One 6-tuple of `segments`: mass, friction, then the two endpoints. */
  datatype SegmentSpec = SegmentSpec(mass: real, friction: real, a: Vec2, b: Vec2)

  /** One 5-tuple of `circles`: mass, friction, centre, radius. */
  datatype CircleSpec = CircleSpec(mass: real, friction: real, center: Vec2, radius: real)

  function SegmentOf(t: seq<real>): SegmentSpec
    requires |t| == 6
  {
    SegmentSpec(t[0], t[1], Vec2(t[2], t[3]), Vec2(t[4], t[5]))
  }

  function CircleOf(t: seq<real>): CircleSpec
    requires |t| == 5
  {
    CircleSpec(t[0], t[1], Vec2(t[2], t[3]), t[4])
  }

  /** The segments a flat array declares: one per complete 6-tuple. */
  function Segments(fs: seq<real>): (r: seq<SegmentSpec>)
    ensures |r| == |fs| / 6
  {
    var ts := Chunks(fs, 6);
    seq(|ts|, i requires 0 <= i < |ts| => SegmentOf(ts[i]))
  }

  /** The circles a flat array declares: one per complete 5-tuple. */
  function Circles(fs: seq<real>): (r: seq<CircleSpec>)
    ensures |r| == |fs| / 5
  {
    var ts := Chunks(fs, 5);
    seq(|ts|, i requires 0 <= i < |ts| => CircleOf(ts[i]))
  }

  /** Segment `i` is read from elements `6i` to `6i + 5`. */
  lemma SegmentAt(fs: seq<real>, i: nat)
    requires i < |fs| / 6
    ensures i * 6 + 6 <= |fs|
    ensures Segments(fs)[i] ==
      SegmentSpec(fs[i * 6], fs[i * 6 + 1], Vec2(fs[i * 6 + 2], fs[i * 6 + 3]), Vec2(fs[i * 6 + 4], fs[i * 6 + 5]))
  {
    ChunkAt(fs, 6, i);
  }

  /** Circle `i` is read from elements `5i` to `5i + 4`. */
  lemma CircleAt(fs: seq<real>, i: nat)
    requires i < |fs| / 5
    ensures i * 5 + 5 <= |fs|
    ensures Circles(fs)[i] ==
      CircleSpec(fs[i * 5], fs[i * 5 + 1], Vec2(fs[i * 5 + 2], fs[i * 5 + 3]), fs[i * 5 + 4])
  {
    ChunkAt(fs, 5, i);
  }

  function SegmentMasses(ss: seq<SegmentSpec>): real
  {
    if ss == [] then 0.0 else SegmentMasses(ss[..|ss| - 1]) + ss[|ss| - 1].mass
  }

  function CircleMasses(cs: seq<CircleSpec>): real
  {
    if cs == [] then 0.0 else CircleMasses(cs[..|cs| - 1]) + cs[|cs| - 1].mass
  }

  /** The loop that adds up the masses of the segments (the moment is not modelled). */
  method SumSegmentMasses(fs: seq<real>) returns (total: real)
    ensures total == SegmentMasses(Segments(fs))
  {
    total := 0.0;
    var i := 0;
    while i < |fs| / 6
      invariant 0 <= i <= |fs| / 6
      invariant total == SegmentMasses(Segments(fs)[..i])
    {
      SegmentAt(fs, i);
      assert Segments(fs)[..i + 1][..i] == Segments(fs)[..i];
      total := total + fs[i * 6];
      i := i + 1;
    }
    assert Segments(fs)[..i] == Segments(fs);
  }

  /** The loop that adds up the masses of the circles (the moment is not modelled). */
  method SumCircleMasses(fs: seq<real>) returns (total: real)
    ensures total == CircleMasses(Circles(fs))
  {
    total := 0.0;
    var i := 0;
    while i < |fs| / 5
      invariant 0 <= i <= |fs| / 5
      invariant total == CircleMasses(Circles(fs)[..i])
    {
      CircleAt(fs, i);
      assert Circles(fs)[..i + 1][..i] == Circles(fs)[..i];
      total := total + fs[i * 5];
      i := i + 1;
    }
    assert Circles(fs)[..i] == Circles(fs);
  }

  /** Everything `create_instance` reads from the configuration. */
  datatype Blueprint = Blueprint(kind: int, segments: seq<real>, circles: seq<real>, mass: real)

  /** An array field as this binding reads it: absent or not an array reads as empty. */
  function ArrayOrEmpty(cfg: Object, key: string): Result<seq<real>, ConfigError>
  {
    match ReadArray(cfg, key)
    case Err(x) => Err(x)
    case Ok(fs) => Ok(if fs.Some? then fs.value else [])
  }

  /**
   * The configuration as `create_instance` reads it. The explicit `mass` field is
   * read only for a dynamic body; for the others the derived sum is kept but unused.
   */
  function ReadBlueprint(cfg: Object): (r: Result<Blueprint, ConfigError>)
    ensures r.Err? ==> r.error in {NotANumber("segments"), NotANumber("circles"), NotANumber("mass")}
    ensures r.Ok? ==> r.value.kind == KindCode(cfg) && 0 <= r.value.kind <= 2
  {
    var kind := KindCode(cfg);
    match ArrayOrEmpty(cfg, "segments")
    case Err(x) => Err(x)
    case Ok(segments) =>
      match ArrayOrEmpty(cfg, "circles")
      case Err(x) => Err(x)
      case Ok(circles) =>
        var derived := SegmentMasses(Segments(segments)) + CircleMasses(Circles(circles));
        if kind > 0 || "mass" !in cfg then Ok(Blueprint(kind, segments, circles, derived))
        else
          match AsFloat(cfg["mass"])
          case None => Err(NotANumber("mass"))
          case Some(m) => Ok(Blueprint(kind, segments, circles, m))
  }

  /**
   * The mass rule: a dynamic body gets the explicit `mass` when present, else the
   * sum of every segment and circle mass; the body kind follows the `type` field.
   */
  lemma BlueprintMass(cfg: Object)
    requires ReadBlueprint(cfg).Ok?
    ensures var bp := ReadBlueprint(cfg).value;
      && bp.kind == KindCode(cfg)
      && ArrayOrEmpty(cfg, "segments") == Ok(bp.segments)
      && ArrayOrEmpty(cfg, "circles") == Ok(bp.circles)
      && (bp.kind == 0 && "mass" in cfg ==> bp.mass == cfg["mass"].n)
      && (bp.kind == 0 && "mass" !in cfg ==>
            bp.mass == SegmentMasses(Segments(bp.segments)) + CircleMasses(Circles(bp.circles)))
  {
  }

  /** Reading fails exactly on a non-number in an array, or a non-number `mass` for a dynamic body. */
  lemma BlueprintFails(cfg: Object)
    ensures ReadBlueprint(cfg).Err? <==>
      || ReadArray(cfg, "segments").Err?
      || ReadArray(cfg, "circles").Err?
      || (KindCode(cfg) == 0 && "mass" in cfg && !cfg["mass"].JNumber?)
  {
  }

  function SegmentShapes(owner: BodyRef, ss: seq<SegmentSpec>): (r: seq<CpShape>)
    ensures |r| == |ss|
  {
    if ss == [] then []
    else
      var s := ss[|ss| - 1];
      SegmentShapes(owner, ss[..|ss| - 1]) + [SegmentShape(owner, s.a, s.b, s.friction)]
  }

  function CircleShapes(owner: BodyRef, cs: seq<CircleSpec>): (r: seq<CpShape>)
    ensures |r| == |cs|
  {
    if cs == [] then []
    else
      var c := cs[|cs| - 1];
      CircleShapes(owner, cs[..|cs| - 1]) + [CircleShape(owner, c.center, c.radius, c.friction)]
  }

  /** The shapes `create_instance` adds to the space: all segments first, then all circles. */
  function AttachedShapes(owner: BodyRef, bp: Blueprint): seq<CpShape>
  {
    SegmentShapes(owner, Segments(bp.segments)) + CircleShapes(owner, Circles(bp.circles))
  }

  /**
   * One shape per complete tuple, segments before circles, each on `owner` and
   * with its own tuple's friction; a trailing partial tuple adds nothing.
   */
  lemma {:induction false} AttachedShapesAt(owner: BodyRef, bp: Blueprint, i: nat)
    requires i < |AttachedShapes(owner, bp)|
    ensures |AttachedShapes(owner, bp)| == |bp.segments| / 6 + |bp.circles| / 5
    ensures var s := AttachedShapes(owner, bp)[i];
      var n := |bp.segments| / 6;
      && s.body == owner
      && (i < n ==> s == SegmentShape(owner, Segments(bp.segments)[i].a, Segments(bp.segments)[i].b,
                                      bp.segments[i * 6 + 1]))
      && (i >= n ==> s == CircleShape(owner, Circles(bp.circles)[i - n].center,
                                      Circles(bp.circles)[i - n].radius, bp.circles[(i - n) * 5 + 1]))
  {
    var n := |bp.segments| / 6;
    if i < n {
      SegmentAt(bp.segments, i);
      SegmentShapeAt(owner, Segments(bp.segments), i);
    } else {
      CircleAt(bp.circles, i - n);
      CircleShapeAt(owner, Circles(bp.circles), i - n);
    }
  }

  lemma {:induction false} SegmentShapeAt(owner: BodyRef, ss: seq<SegmentSpec>, i: nat)
    requires i < |ss|
    ensures SegmentShapes(owner, ss)[i] == SegmentShape(owner, ss[i].a, ss[i].b, ss[i].friction)
  {
    if i < |ss| - 1 {
      SegmentShapeAt(owner, ss[..|ss| - 1], i);
    }
  }

  lemma {:induction false} CircleShapeAt(owner: BodyRef, cs: seq<CircleSpec>, i: nat)
    requires i < |cs|
    ensures CircleShapes(owner, cs)[i] == CircleShape(owner, cs[i].center, cs[i].radius, cs[i].friction)
  {
    if i < |cs| - 1 {
      CircleShapeAt(owner, cs[..|cs| - 1], i);
    }
  }

  /** The transform a new body is placed at: the entity's own, or the origin when it has none. */
  function PlacementOf(ts: map<EntityId, Transform2D>, e: EntityId): Transform2D
  {
    if e in ts then ts[e] else DefaultTransform()
  }

  /** A new dynamic body at rest, placed at `t` with its angle converted to radians. */
  function PlacedBody(mass: real, t: Transform2D): (b: CpBody)
    ensures b.position == Vec2(t.x, t.y) && b.velocity == Origin && b.tag == None
    ensures b.angle * 180.0 == t.angle * Pi
  {
    CpBody(mass, Vec2(t.x, t.y), t.angle * (Pi / 180.0), Origin, None)
  }

  // ---------------------------------------------------------------------------
  // Write-back

  /** `update_body` reads the user-data pointer back as an entity: null reads as entity 0. */
  function TagEntity(tag: Option<EntityId>): (e: EntityId)
    ensures tag.Some? ==> e == tag.value
    ensures tag.None? ==> e == 0
  {
    if tag.Some? then tag.value else 0
  }

  /** The tag written at creation reads back as the same entity, entity 0 included. */
  lemma TagRoundTrip(e: EntityId)
    ensures TagEntity(EncodeTag(e)) == e
  {
  }

  /** The transform `update_body` writes: position unscaled, angle converted to degrees. */
  function SyncedTransform(b: CpBody): (t: Transform2D)
    ensures t.x == b.position.x && t.y == b.position.y
    ensures t.angle * Pi == b.angle * 180.0
  {
    MakeTransform(b.position.x, b.position.y, b.angle * (180.0 / Pi))
  }

  /** A sync pass: every body in order, `assign_or_replace` of its entity's transform. */
  function SyncAll(bodies: seq<CpBody>, ts: map<EntityId, Transform2D>): (r: map<EntityId, Transform2D>)
    ensures ts.Keys <= r.Keys
    ensures forall k :: 0 <= k < |bodies| ==> TagEntity(bodies[k].tag) in r
  {
    if bodies == [] then ts
    else
      var b := bodies[|bodies| - 1];
      SyncAll(bodies[..|bodies| - 1], ts)[TagEntity(b.tag) := SyncedTransform(b)]
  }

  /** A sync pass gives a transform to every body's entity and removes none. */
  lemma {:induction false} SyncAllKeys(bodies: seq<CpBody>, ts: map<EntityId, Transform2D>)
    ensures SyncAll(bodies, ts).Keys == ts.Keys + set k | 0 <= k < |bodies| :: TagEntity(bodies[k].tag)
  {
    if bodies != [] {
      var init := bodies[..|bodies| - 1];
      SyncAllKeys(init, ts);
      assert (set k | 0 <= k < |bodies| :: TagEntity(bodies[k].tag)) ==
        (set k | 0 <= k < |init| :: TagEntity(init[k].tag)) + {TagEntity(bodies[|bodies| - 1].tag)};
    }
  }

  /** An entity no body is tagged with keeps what it had. */
  lemma {:induction false} SyncAllUntouched(bodies: seq<CpBody>, ts: map<EntityId, Transform2D>, e: EntityId)
    requires forall k :: 0 <= k < |bodies| ==> TagEntity(bodies[k].tag) != e
    ensures e in SyncAll(bodies, ts) <==> e in ts
    ensures e in ts ==> SyncAll(bodies, ts)[e] == ts[e]
  {
    if bodies != [] {
      SyncAllUntouched(bodies[..|bodies| - 1], ts, e);
    }
  }

  /** An entity ends with the transform of the last body in the space tagged with it. */
  lemma {:induction false} SyncAllLastWins(bodies: seq<CpBody>, ts: map<EntityId, Transform2D>, j: nat)
    requires j < |bodies|
    requires forall k :: j < k < |bodies| ==> TagEntity(bodies[k].tag) != TagEntity(bodies[j].tag)
    ensures TagEntity(bodies[j].tag) in SyncAll(bodies, ts)
    ensures SyncAll(bodies, ts)[TagEntity(bodies[j].tag)] == SyncedTransform(bodies[j])
  {
    if j < |bodies| - 1 {
      SyncAllLastWins(bodies[..|bodies| - 1], ts, j);
    }
  }

  /**
   * Creating a dynamic body and syncing it gives the entity back its own
   * placement: the position is not scaled and the two angle conversions cancel.
   */
  lemma CreateThenSync(bodies: seq<CpBody>, ts: map<EntityId, Transform2D>, e: EntityId, mass: real)
    requires e in ts
    ensures SyncAll(bodies + [PlacedBody(mass, ts[e]).(tag := EncodeTag(e))], ts)[e] == ts[e]
  {
    var b := PlacedBody(mass, ts[e]).(tag := EncodeTag(e));
    assert (bodies + [b])[..|bodies + [b]| - 1] == bodies;
    assert SyncedTransform(b).angle == ts[e].angle * (Pi / 180.0) * (180.0 / Pi);
  }

  /** `n` steps, each followed by a sync pass: the final bodies and transforms. */
  function Run(n: nat, bodies: seq<CpBody>, ts: map<EntityId, Transform2D>,
               advance: seq<CpBody> -> seq<CpBody>): (r: (seq<CpBody>, map<EntityId, Transform2D>))
    ensures (forall bs :: |advance(bs)| == |bs|) ==> |r.0| == |bodies|
    ensures ts.Keys <= r.1.Keys
  {
    if n == 0 then (bodies, ts)
    else
      var before := Run(n - 1, bodies, ts, advance);
      var stepped := advance(before.0);
      (stepped, SyncAll(stepped, before.1))
  }

  /** `a` rounds and then `b` more are `a + b` rounds. */
  lemma {:induction false} RunCompose(a: nat, b: nat, bodies: seq<CpBody>, ts: map<EntityId, Transform2D>,
                                      advance: seq<CpBody> -> seq<CpBody>)
    ensures var mid := Run(a, bodies, ts, advance);
      Run(b, mid.0, mid.1, advance) == Run(a + b, bodies, ts, advance)
  {
    if b > 0 {
      RunCompose(a, b - 1, bodies, ts, advance);
    }
  }

  /** One more round of `Run`: a step of the last round's bodies, then a sync into its transforms. */
  lemma RunUnfold(n: nat, bodies: seq<CpBody>, ts: map<EntityId, Transform2D>, advance: seq<CpBody> -> seq<CpBody>)
    ensures var before := Run(n, bodies, ts, advance);
      && Run(n + 1, bodies, ts, advance).0 == advance(before.0)
      && Run(n + 1, bodies, ts, advance).1 == SyncAll(advance(before.0), before.1)
      && ChipmunkTrace(n + 1) == ChipmunkTrace(n) + [Stepped, Synced]
  {
  }

  /**
   * After at least one step every body of the final space has written its
   * entity's transform (the last such body wins); with no step nothing is written.
   */
  lemma RunShowsFinalBodies(n: nat, bodies: seq<CpBody>, ts: map<EntityId, Transform2D>,
                            advance: seq<CpBody> -> seq<CpBody>, j: nat)
    requires n >= 1
    requires j < |Run(n, bodies, ts, advance).0|
    requires var fin := Run(n, bodies, ts, advance).0;
      forall k :: j < k < |fin| ==> TagEntity(fin[k].tag) != TagEntity(fin[j].tag)
    ensures var (fin, out) := Run(n, bodies, ts, advance);
      TagEntity(fin[j].tag) in out && out[TagEntity(fin[j].tag)] == SyncedTransform(fin[j])
    ensures Run(0, bodies, ts, advance).1 == ts
  {
    var before := Run(n - 1, bodies, ts, advance);
    SyncAllLastWins(advance(before.0), before.1, j);
  }

  // ---------------------------------------------------------------------------
  // Velocity operations

  /** The body a scripting handle reaches: none for a null handle or an entity without Phys2D. */
  function BodyOf(ent: Option<GGEntity>, comps: map<EntityId, Phys2D>): (r: Option<nat>)
    ensures r.Some? <==> ent.Some? && ent.value.e in comps
    ensures r.Some? ==> r.value == comps[ent.value.e].body
  {
    if ent.Some? && ent.value.e in comps then Some(comps[ent.value.e].body) else None
  }

  /** `addVelocity`: the target body's velocity plus `vel`; nothing changes without a target. */
  function VelocityAdded(bodies: seq<CpBody>, target: Option<nat>, vel: Vec2): (r: seq<CpBody>)
    ensures |r| == |bodies|
    ensures target.Some? && target.value < |bodies| ==>
      r[target.value] == bodies[target.value].(velocity := Plus(bodies[target.value].velocity, vel))
    ensures forall i :: 0 <= i < |bodies| && target != Some(i) ==> r[i] == bodies[i]
  {
    if target.Some? && target.value < |bodies| then
      var b := bodies[target.value];
      bodies[target.value := b.(velocity := Plus(b.velocity, vel))]
    else bodies
  }

  /** `setVelocity`: the target body's velocity becomes `vel`; nothing changes without a target. */
  function VelocitySet(bodies: seq<CpBody>, target: Option<nat>, vel: Vec2): (r: seq<CpBody>)
    ensures |r| == |bodies|
    ensures target.Some? && target.value < |bodies| ==>
      r[target.value] == bodies[target.value].(velocity := vel)
    ensures forall i :: 0 <= i < |bodies| && target != Some(i) ==> r[i] == bodies[i]
  {
    if target.Some? && target.value < |bodies| then
      bodies[target.value := bodies[target.value].(velocity := vel)]
    else bodies
  }

  /** Two additions accumulate: adding `u` then `v` is adding their sum. */
  lemma AddVelocityAccumulates(bodies: seq<CpBody>, target: Option<nat>, u: Vec2, v: Vec2)
    ensures VelocityAdded(VelocityAdded(bodies, target, u), target, v) == VelocityAdded(bodies, target, Plus(u, v))
  {
  }

  /**
   * Setting overrides whatever was added or set before: the target ends with
   * exactly `v`, every other body is left as it was, and without a target in
   * the space nothing changes.
   */
  lemma SetVelocityOverrides(bodies: seq<CpBody>, target: Option<nat>, u: Vec2, v: Vec2)
    ensures VelocitySet(VelocityAdded(bodies, target, u), target, v) == VelocitySet(bodies, target, v)
    ensures VelocitySet(VelocitySet(bodies, target, u), target, v) == VelocitySet(bodies, target, v)
    ensures target.Some? && target.value < |bodies| ==>
      && VelocitySet(bodies, target, v)[target.value].velocity == v
      && VelocitySet(bodies, target, v)[target.value] == bodies[target.value].(velocity := v)
    ensures forall i :: 0 <= i < |bodies| && target != Some(i) ==> VelocitySet(bodies, target, v)[i] == bodies[i]
    ensures !(target.Some? && target.value < |bodies|) ==> VelocitySet(bodies, target, v) == bodies
  {
  }

  // ---------------------------------------------------------------------------
  // The system and its component

  class ChipmunkSystem {
    /** The accumulator of unstepped frame time. */
    var step: Millis
    /** The dynamic bodies of the space, in the order they were added. */
    var bodies: seq<CpBody>
    /** Every shape added to the space, in order. */
    var shapes: seq<CpShape>
    /** The steps and sync passes `update` has made. */
    ghost var trace: seq<Event>

    constructor ()
      ensures step == 0.0 && bodies == [] && shapes == [] && trace == []
    {
      step := 0.0;
      bodies := [];
      shapes := [];
      trace := [];
    }

    /** `cpBodyNew` followed by `cpSpaceAddBody`: the new body's index. */
    method AddBody(b: CpBody) returns (n: nat)
      modifies this
      ensures n == |old(bodies)| && bodies == old(bodies) + [b]
      ensures step == old(step) && shapes == old(shapes) && trace == old(trace)
    {
      n := |bodies|;
      bodies := bodies + [b];
    }

    /** `cpBodySetUserData`: the body's tag becomes the entity's. */
    method SetTag(n: nat, e: EntityId)
      requires n < |bodies|
      modifies this
      ensures bodies == old(bodies)[n := old(bodies)[n].(tag := EncodeTag(e))]
      ensures step == old(step) && shapes == old(shapes) && trace == old(trace)
    {
      bodies := bodies[n := bodies[n].(tag := EncodeTag(e))];
    }

    /** Every Phys2D in the registry names a body of this space. */
    ghost predicate RefsValid(reg: Registry<Phys2D>)
      reads this, reg
    {
      forall e :: e in reg.components ==> reg.components[e].body < |bodies|
    }

    /** `cpSpaceEachBody(world, update_body, scene)`. */
    method SyncBodies(reg: Registry<Phys2D>)
      modifies reg
      ensures reg.transforms == SyncAll(bodies, old(reg.transforms))
      ensures reg.components == old(reg.components)
    {
      var i := 0;
      while i < |bodies|
        invariant 0 <= i <= |bodies|
        invariant reg.transforms == SyncAll(bodies[..i], old(reg.transforms))
        invariant reg.components == old(reg.components)
      {
        var b := bodies[i];
        assert bodies[..i + 1][..i] == bodies[..i];
        reg.AssignOrReplaceTransform(TagEntity(b.tag), SyncedTransform(b));
        i := i + 1;
      }
      assert bodies[..i] == bodies;
    }

    /**
     * `ChipmunkSystem::update`: accumulate the frame time, clamp past 100 ms,
     * then step in 16 ms units, syncing after every step. The engine's step is
     * the parameter `advance`.
     */
    method Update(frame: Millis, reg: Registry<Phys2D>, advance: seq<CpBody> -> seq<CpBody>)
      modifies this, reg
      ensures var p := Plan(old(step), frame);
        && step == p.remainder
        && (bodies, reg.transforms) == Run(p.steps, old(bodies), old(reg.transforms), advance)
        && trace == old(trace) + ChipmunkTrace(p.steps)
      ensures shapes == old(shapes) && reg.components == old(reg.components)
      ensures (forall bs :: |advance(bs)| == |bs|) && old(RefsValid(reg)) ==> RefsValid(reg)
    {
      step := step + frame;
      if step > ClampMs {
        step := 0.0;
        StepAndSync(reg, advance);
        ghost var once := (bodies, reg.transforms);
        assert once == Run(1, old(bodies), old(reg.transforms), advance);
        DrainSteps(reg, advance);
        RunCompose(1, Drain(0.0).steps, old(bodies), old(reg.transforms), advance);
        RepeatCompose([Stepped, Synced], 1, Drain(0.0).steps);
      } else {
        DrainSteps(reg, advance);
      }
    }

    /** The 16 ms loop of `update`: one step and one sync pass per whole 16 ms. */
    method DrainSteps(reg: Registry<Phys2D>, advance: seq<CpBody> -> seq<CpBody>)
      modifies this, reg
      ensures var k := Drain(old(step)).steps;
        && step == Drain(old(step)).remainder
        && bodies == Run(k, old(bodies), old(reg.transforms), advance).0
        && reg.transforms == Run(k, old(bodies), old(reg.transforms), advance).1
        && trace == old(trace) + ChipmunkTrace(k)
      ensures shapes == old(shapes) && reg.components == old(reg.components)
    {
      ghost var n: nat := 0;
      ghost var start, startTs := bodies, reg.transforms;
      while step >= StepMs
        invariant n + Drain(step).steps == Drain(old(step)).steps
        invariant Drain(step).remainder == Drain(old(step)).remainder
        invariant (bodies, reg.transforms) == Run(n, start, startTs, advance)
        invariant shapes == old(shapes) && reg.components == old(reg.components)
        invariant trace == old(trace) + ChipmunkTrace(n)
        decreases Drain(step).steps
      {
        DrainUnfold(step);
        RunUnfold(n, start, startTs, advance);
        StepAndSync(reg, advance);
        step := step - StepMs;
        n := n + 1;
      }
    }

    /** One `cpSpaceStep` followed by one sync pass. */
    method StepAndSync(reg: Registry<Phys2D>, advance: seq<CpBody> -> seq<CpBody>)
      modifies this, reg
      ensures bodies == advance(old(bodies))
      ensures reg.transforms == SyncAll(bodies, old(reg.transforms))
      ensures trace == old(trace) + [Stepped, Synced]
      ensures step == old(step) && shapes == old(shapes) && reg.components == old(reg.components)
    {
      bodies := advance(bodies);
      trace := trace + [Stepped];
      SyncBodies(reg);
      trace := trace + [Synced];
    }

    method AttachSegments(owner: BodyRef, segments: seq<real>)
      modifies this
      ensures shapes == old(shapes) + SegmentShapes(owner, Segments(segments))
      ensures bodies == old(bodies) && step == old(step) && trace == old(trace)
    {
      var i := 0;
      while i < |segments| / 6
        invariant 0 <= i <= |segments| / 6
        invariant shapes == old(shapes) + SegmentShapes(owner, Segments(segments)[..i])
        invariant bodies == old(bodies) && step == old(step) && trace == old(trace)
      {
        SegmentAt(segments, i);
        assert Segments(segments)[..i + 1][..i] == Segments(segments)[..i];
        var a := Vec2(segments[i * 6 + 2], segments[i * 6 + 3]);
        var b := Vec2(segments[i * 6 + 4], segments[i * 6 + 5]);
        shapes := shapes + [SegmentShape(owner, a, b, segments[i * 6 + 1])];
        i := i + 1;
      }
      assert Segments(segments)[..i] == Segments(segments);
    }

    method AttachCircles(owner: BodyRef, circles: seq<real>)
      modifies this
      ensures shapes == old(shapes) + CircleShapes(owner, Circles(circles))
      ensures bodies == old(bodies) && step == old(step) && trace == old(trace)
    {
      var i := 0;
      while i < |circles| / 5
        invariant 0 <= i <= |circles| / 5
        invariant shapes == old(shapes) + CircleShapes(owner, Circles(circles)[..i])
        invariant bodies == old(bodies) && step == old(step) && trace == old(trace)
      {
        CircleAt(circles, i);
        assert Circles(circles)[..i + 1][..i] == Circles(circles)[..i];
        var p := Vec2(circles[i * 5 + 2], circles[i * 5 + 3]);
        shapes := shapes + [CircleShape(owner, p, circles[i * 5 + 4], circles[i * 5 + 1])];
        i := i + 1;
      }
      assert Circles(circles)[..i] == Circles(circles);
    }

    /** `ggentity_addVelocity`: `reg` is the registry the handle points into. */
    method AddVelocity(ent: Option<GGEntity>, vel: Vec2, reg: Registry<Phys2D>)
      requires RefsValid(reg)
      modifies this
      ensures bodies == VelocityAdded(old(bodies), BodyOf(ent, reg.components), vel)
      ensures step == old(step) && shapes == old(shapes) && trace == old(trace)
    {
      if ent.None? {
        return;
      }
      if ent.value.e !in reg.components {
        return;
      }
      var i := reg.components[ent.value.e].body;
      bodies := bodies[i := bodies[i].(velocity := Plus(bodies[i].velocity, vel))];
    }

    /** `ggentity_setVelocity`: `reg` is the registry the handle points into. */
    method SetVelocity(ent: Option<GGEntity>, vel: Vec2, reg: Registry<Phys2D>)
      requires RefsValid(reg)
      modifies this
      ensures bodies == VelocitySet(old(bodies), BodyOf(ent, reg.components), vel)
      ensures step == old(step) && shapes == old(shapes) && trace == old(trace)
    {
      if ent.None? {
        return;
      }
      if ent.value.e !in reg.components {
        return;
      }
      var i := reg.components[ent.value.e].body;
      bodies := bodies[i := bodies[i].(velocity := vel)];
    }
  }

  /**
   * The reading half of `create_instance`: the body type, both arrays, the
   * running mass total over segments then circles, and the explicit `mass` of a
   * dynamic body.
   */
  method ReadConfig(cfg: Object) returns (r: Result<Blueprint, ConfigError>)
    ensures r == ReadBlueprint(cfg)
  {
    var kind := KindCode(cfg);

    var segs := ArrayOrEmpty(cfg, "segments");
    if segs.Err? {
      return Err(segs.error);
    }
    var segments := segs.value;
    var totalMass := SumSegmentMasses(segments);

    var circs := ArrayOrEmpty(cfg, "circles");
    if circs.Err? {
      return Err(circs.error);
    }
    var circles := circs.value;
    var circleMass := SumCircleMasses(circles);
    totalMass := totalMass + circleMass;

    var mass := totalMass;
    if kind == 0 && "mass" in cfg {
      var m := AsFloat(cfg["mass"]);
      if m.None? {
        return Err(NotANumber("mass"));
      }
      mass := m.value;
    }
    return Ok(Blueprint(kind, segments, circles, mass));
  }

  /** The "physics2d" component of this binding; `chip` is the system that owns the space. */
  class Physics2DComponent {
    const chip: ChipmunkSystem

    constructor (chip: ChipmunkSystem)
      ensures this.chip == chip
    {
      this.chip := chip;
    }

    /**
     * `Physics2DComponent::create_instance`. A failed JSON conversion ends the
     * call before anything is changed; otherwise it returns true.
     */
    method CreateInstance(reg: Registry<Phys2D>, e: EntityId, cfg: Object) returns (r: Result<bool, ConfigError>)
      modifies chip, reg
      ensures chip.step == old(chip.step) && chip.trace == old(chip.trace)
      ensures reg.transforms == old(reg.transforms)
      ensures old(chip.RefsValid(reg)) ==> chip.RefsValid(reg)
      ensures ReadBlueprint(cfg).Err? ==>
        && r == Err(ReadBlueprint(cfg).error)
        && chip.bodies == old(chip.bodies) && chip.shapes == old(chip.shapes)
        && reg.components == old(reg.components)
      ensures ReadBlueprint(cfg).Ok? ==>
        var bp := ReadBlueprint(cfg).value;
        var n := |old(chip.bodies)|;
        && r == Ok(true)
        && (bp.kind != 0 ==>
              && chip.bodies == old(chip.bodies)
              && chip.shapes == old(chip.shapes) + AttachedShapes(SpaceStaticBody, bp)
              && reg.components == old(reg.components))
        && (bp.kind == 0 ==>
              && chip.bodies == old(chip.bodies) + [PlacedBody(bp.mass, PlacementOf(reg.transforms, e)).(tag := EncodeTag(e))]
              && chip.shapes == old(chip.shapes) + AttachedShapes(SpaceBody(n), bp)
              && reg.components == old(reg.components)[e := Phys2D(n)])
    {
      var read := ReadConfig(cfg);
      if read.Err? {
        return Err(read.error);
      }
      Instantiate(reg, e, read.value);
      return Ok(true);
    }

    /** Everything `create_instance` does once the configuration has been read. */
    method Instantiate(reg: Registry<Phys2D>, e: EntityId, bp: Blueprint)
      requires bp.kind >= 0
      modifies chip, reg
      ensures chip.step == old(chip.step) && chip.trace == old(chip.trace)
      ensures reg.transforms == old(reg.transforms)
      ensures old(chip.RefsValid(reg)) ==> chip.RefsValid(reg)
      ensures bp.kind != 0 ==>
        && chip.bodies == old(chip.bodies)
        && chip.shapes == old(chip.shapes) + AttachedShapes(SpaceStaticBody, bp)
        && reg.components == old(reg.components)
      ensures bp.kind == 0 ==>
        var n := |old(chip.bodies)|;
        && chip.bodies == old(chip.bodies) + [PlacedBody(bp.mass, PlacementOf(reg.transforms, e)).(tag := EncodeTag(e))]
        && chip.shapes == old(chip.shapes) + AttachedShapes(SpaceBody(n), bp)
        && reg.components == old(reg.components)[e := Phys2D(n)]
    {
      var owner: BodyRef;
      if bp.kind > 0 {
        owner := SpaceStaticBody;
      } else {
        var t := DefaultTransform();
        if e in reg.transforms {
          t := reg.transforms[e];
        }
        var n := chip.AddBody(PlacedBody(bp.mass, t));
        owner := SpaceBody(n);
      }

      chip.AttachSegments(owner, bp.segments);
      chip.AttachCircles(owner, bp.circles);

      if bp.kind == 0 {
        var n := owner.index;
        chip.SetTag(n, e);
        reg.AssignOrReplaceComponent(e, Phys2D(n));
      }
    }
  }
}
