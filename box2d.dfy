/**
 * The Box2D binding (Box2DSystem.cpp): the component that reads configuration
 * into a B2DPhysics record (`add`) and later creates the body (`create_instance`),
 * the system's accumulator with one write-back per frame, and its settings.
 */
module Box2D {
  import opened Wrappers
  import opened Scene
  import opened Engine
  import opened Config
  import opened Tuples
  import opened Timestep
  import opened Ecs
  import opened Interfaces

  /** The value of pi both angle conversions of this binding use. */
  const Pi: real := 3.14159265

  /** The scale factor a new system starts with. */
  const DefaultScaleFactor: real := 30.0

  datatype BodyKind = DynamicBody | StaticBody | KinematicBody

  /** A shape in simulation units. */
  datatype Shape =
    | BoxShape(halfWidth: real, halfHeight: real)
    | PolygonShape(vertices: seq<Vec2>)
    | CircleShape(center: Vec2, radius: real)

  datatype Fixture = Fixture(shape: Shape, density: real, friction: real, restitution: real)

  /** A body of the world. `tag` is its user-data slot. */
  datatype B2Body = B2Body(kind: BodyKind, position: Vec2, angle: real, tag: Option<EntityId>, fixtures: seq<Fixture>)

  /** The component: what `add` read, and the body `create_instance` made (an index into the world). */
  datatype B2DPhysics = B2DPhysics(friction: real, restitution: real, mass: real, kind: int,
                                   body: Option<nat>, shapes: seq<Shape>)

  // ---------------------------------------------------------------------------
  // Reading the configuration (`add`)

  /** `box: [w, h]`: one box whose half-extents are half the sizes, divided by the factor. */
  function BoxShapes(box: Option<seq<real>>, f: real): seq<Shape>
    requires f != 0.0
    requires box.Some? ==> |box.value| >= 2
  {
    if box.None? then [] else [BoxShape((box.value[0] / 2.0) / f, (box.value[1] / 2.0) / f)]
  }

  /** A flat coordinate list read as vertices: one per complete pair. */
  function Vertices(fs: seq<real>): (r: seq<Vec2>)
    ensures |r| == |fs| / 2
  {
    var ps := Chunks(fs, 2);
    seq(|ps|, i requires 0 <= i < |ps| => Vec2(ps[i][0], ps[i][1]))
  }

  /** `polygon`: one polygon over the coordinates divided by the factor. */
  function PolygonShapes(poly: Option<seq<real>>, f: real): seq<Shape>
    requires f != 0.0
  {
    if poly.None? then [] else [PolygonShape(Vertices(Scaled(poly.value, f)))]
  }

  /** One circle per complete triple `x, y, r`. */
  function CircleList(fs: seq<real>): (r: seq<Shape>)
    ensures |r| == |fs| / 3
  {
    var ts := Chunks(fs, 3);
    seq(|ts|, i requires 0 <= i < |ts| => CircleShape(Vec2(ts[i][0], ts[i][1]), ts[i][2]))
  }

  /** `circles`: the circles of the values divided by the factor. */
  function CircleShapes(circles: Option<seq<real>>, f: real): seq<Shape>
    requires f != 0.0
  {
    if circles.None? then [] else CircleList(Scaled(circles.value, f))
  }

  /**
   * The component `add` records for a configuration, with `f` the scale factor:
   * numeric defaults, the body kind, and the box, polygon and circle shapes in
   * that order.
   */
  function ReadPhysics(cfg: Object, f: real): (r: Result<B2DPhysics, ConfigError>)
    requires f != 0.0
    ensures r.Err? <==>
      || ReadArray(cfg, "box").Err?
      || (ReadArray(cfg, "box").Ok? && ReadArray(cfg, "box").value.Some? && |ReadArray(cfg, "box").value.value| < 2)
      || ReadArray(cfg, "polygon").Err?
      || ReadArray(cfg, "circles").Err?
    ensures r.Err? ==> r.error in {NotANumber("box"), TooFewValues("box", 2), NotANumber("polygon"), NotANumber("circles")}
  {
    var base := B2DPhysics(NumberOr(cfg, "friction", 1.0), NumberOr(cfg, "restitution", 0.3),
                           NumberOr(cfg, "mass", 1.0), KindCode(cfg), None, []);
    match ReadArray(cfg, "box")
    case Err(x) => Err(x)
    case Ok(box) =>
      if box.Some? && |box.value| < 2 then Err(TooFewValues("box", 2))
      else
        match ReadArray(cfg, "polygon")
        case Err(x) => Err(x)
        case Ok(poly) =>
          match ReadArray(cfg, "circles")
          case Err(x) => Err(x)
          case Ok(circles) =>
            Ok(base.(shapes := BoxShapes(box, f) + PolygonShapes(poly, f) + CircleShapes(circles, f)))
  }

  /**
   * The defaults of `add`: friction 1.0, restitution 0.3 and mass 1.0 unless the
   * field is a number; the kind from the `type` field; no body yet.
   */
  lemma AddDefaults(cfg: Object, f: real)
    requires f != 0.0 && ReadPhysics(cfg, f).Ok?
    ensures var p := ReadPhysics(cfg, f).value;
      && p.friction == (if "friction" in cfg && cfg["friction"].JNumber? then cfg["friction"].n else 1.0)
      && p.restitution == (if "restitution" in cfg && cfg["restitution"].JNumber? then cfg["restitution"].n else 0.3)
      && p.mass == (if "mass" in cfg && cfg["mass"].JNumber? then cfg["mass"].n else 1.0)
      && p.kind == KindCode(cfg)
      && p.body.None?
  {
  }

  /**
   * The shapes `add` records: a box when `box` is an array, a polygon when
   * `polygon` is, then one circle per complete triple of `circles`, in that order.
   */
  lemma AddShapeOrder(cfg: Object, f: real)
    requires f != 0.0 && ReadPhysics(cfg, f).Ok?
    ensures var p := ReadPhysics(cfg, f).value;
      var nb := if "box" in cfg && cfg["box"].JArray? then 1 else 0;
      var np := if "polygon" in cfg && cfg["polygon"].JArray? then 1 else 0;
      var nc := if "circles" in cfg && cfg["circles"].JArray? then |cfg["circles"].items| / 3 else 0;
      && |p.shapes| == nb + np + nc
      && (forall i :: 0 <= i < nb ==> p.shapes[i].BoxShape?)
      && (forall i :: nb <= i < nb + np ==> p.shapes[i].PolygonShape?)
      && (forall i :: nb + np <= i < |p.shapes| ==> p.shapes[i].CircleShape?)
  {
    var circles := ReadArray(cfg, "circles").value;
    if circles.Some? {
      var cs := CircleList(Scaled(circles.value, f));
      forall i | 0 <= i < |cs| ensures cs[i].CircleShape? {
      }
    }
  }

  /** The box's half-extents, multiplied back by the factor, are half the configured sizes. */
  lemma BoxGeometry(box: seq<real>, f: real)
    requires f != 0.0 && |box| >= 2
    ensures var s := BoxShapes(Some(box), f);
      |s| == 1 && s[0].halfWidth * f * 2.0 == box[0] && s[0].halfHeight * f * 2.0 == box[1]
  {
  }

  /** Vertex `i` of the polygon, multiplied back by the factor, is the pair at `2i`. */
  lemma PolygonVertexAt(poly: seq<real>, f: real, i: nat)
    requires f != 0.0 && i < |poly| / 2
    ensures var v := PolygonShapes(Some(poly), f)[0].vertices;
      |v| == |poly| / 2 && v[i].x * f == poly[i * 2] && v[i].y * f == poly[i * 2 + 1]
  {
    ChunkAt(Scaled(poly, f), 2, i);
  }

  /** Circle `i`, multiplied back by the factor, is the triple at `3i`. */
  lemma CircleAt(circles: seq<real>, f: real, i: nat)
    requires f != 0.0 && i < |circles| / 3
    ensures var c := CircleShapes(Some(circles), f)[i];
      && c.CircleShape?
      && c.center.x * f == circles[i * 3] && c.center.y * f == circles[i * 3 + 1]
      && c.radius * f == circles[i * 3 + 2]
  {
    var scaled := Scaled(circles, f);
    ChunkAt(scaled, 3, i);
    var t := Chunks(scaled, 3)[i];
    assert t[0] == scaled[i * 3] && t[1] == scaled[i * 3 + 1] && t[2] == scaled[i * 3 + 2];
    assert CircleShapes(Some(circles), f)[i] == CircleShape(Vec2(t[0], t[1]), t[2]);
  }

  /** A `type: "dynamic"`, `box: [2, 2]` entity at the default factor gets one 1/30-unit box. */
  lemma DynamicBoxScenario()
    ensures ReadPhysics(map["type" := JString("dynamic"), "box" := JArray([JNumber(2.0), JNumber(2.0)])],
                        DefaultScaleFactor)
      == Ok(B2DPhysics(1.0, 0.3, 1.0, 0, None, [BoxShape(1.0 / 30.0, 1.0 / 30.0)]))
  {
    var cfg := map["type" := JString("dynamic"), "box" := JArray([JNumber(2.0), JNumber(2.0)])];
    assert "friction" !in cfg && "restitution" !in cfg && "mass" !in cfg;
    assert "polygon" !in cfg && "circles" !in cfg;
    assert cfg["type"] == JString("dynamic");
    assert cfg["box"].items == [JNumber(2.0), JNumber(2.0)];
    assert AsFloats(cfg["box"].items).value == [2.0, 2.0];
    assert ReadArray(cfg, "box") == Ok(Some([2.0, 2.0]));
    assert ReadArray(cfg, "polygon") == Ok(None) && ReadArray(cfg, "circles") == Ok(None);
    assert KindCode(cfg) == 0;
    assert BoxShapes(Some([2.0, 2.0]), DefaultScaleFactor) == [BoxShape(1.0 / 30.0, 1.0 / 30.0)];
    assert PolygonShapes(None, DefaultScaleFactor) == [] && CircleShapes(None, DefaultScaleFactor) == [];
    assert ReadPhysics(cfg, DefaultScaleFactor).value.shapes == [BoxShape(1.0 / 30.0, 1.0 / 30.0)];
  }

  /** The circle loop of `add`: one circle per complete triple of the divided values. */
  method AppendCircles(shapes: seq<Shape>, sm: array<real>) returns (out: seq<Shape>)
    ensures out == shapes + CircleList(sm[..])
  {
    out := shapes;
    var i := 0;
    while i < sm.Length / 3
      invariant 0 <= i <= sm.Length / 3
      invariant out == shapes + CircleList(sm[..])[..i]
    {
      ChunkAt(sm[..], 3, i);
      assert CircleList(sm[..])[..i + 1] == CircleList(sm[..])[..i] + [CircleList(sm[..])[i]];
      out := out + [CircleShape(Vec2(sm[i * 3], sm[i * 3 + 1]), sm[i * 3 + 2])];
      i := i + 1;
    }
    assert CircleList(sm[..])[..i] == CircleList(sm[..]);
  }

  /** The `std::vector<float>` read from the configuration, then divided in place by the factor. */
  method DividedCopy(values: seq<real>, f: real) returns (sm: array<real>)
    requires f != 0.0
    ensures fresh(sm) && sm[..] == Scaled(values, f)
  {
    sm := new real[|values|](i requires 0 <= i < |values| => values[i]);
    assert sm[..] == values;
    DivideAll(sm, f);
  }

  // ---------------------------------------------------------------------------
  // Creating the body (`create_instance`)

  /** The body type for the stored kind; a value outside 0..2 keeps b2BodyDef's default, static. */
  function KindOf(code: int): (k: BodyKind)
    ensures k == DynamicBody <==> code == 0
    ensures k == KinematicBody <==> code == 2
  {
    match code
    case 0 => DynamicBody
    case 1 => StaticBody
    case 2 => KinematicBody
    case _ => StaticBody
  }

  /** One fixture per stored shape, with density 1 and the component's friction and restitution. */
  function Fixtures(phys: B2DPhysics): (r: seq<Fixture>)
    ensures |r| == |phys.shapes|
    ensures forall i :: 0 <= i < |r| ==>
      && r[i].shape == phys.shapes[i] && r[i].density == 1.0
      && r[i].friction == phys.friction && r[i].restitution == phys.restitution
  {
    seq(|phys.shapes|, i requires 0 <= i < |phys.shapes| =>
      Fixture(phys.shapes[i], 1.0, phys.friction, phys.restitution))
  }

  /**
   * The body `create_instance` adds for a component at transform `t`, with `f`
   * the factor: position divided by `f`, angle in radians, tagged with the
   * entity whatever its kind.
   */
  function NewBody(phys: B2DPhysics, t: Transform2D, f: real, e: EntityId): (b: B2Body)
    requires f != 0.0
    ensures b.position.x * f == t.x && b.position.y * f == t.y
    ensures b.angle * 180.0 == t.angle * Pi
    ensures b.tag == EncodeTag(e) && b.kind == KindOf(phys.kind)
    ensures |b.fixtures| == |phys.shapes|
  {
    B2Body(KindOf(phys.kind), Vec2(t.x / f, t.y / f), t.angle * (Pi / 180.0), EncodeTag(e), Fixtures(phys))
  }

  // ---------------------------------------------------------------------------
  // Write-back

  /** The transform written back: position times the scale factor, angle in degrees. */
  function SyncedTransform(b: B2Body, sf: real): (t: Transform2D)
    ensures t.x == b.position.x * sf && t.y == b.position.y * sf
    ensures t.angle * Pi == b.angle * 180.0
  {
    MakeTransform(b.position.x * sf, b.position.y * sf, b.angle * (180.0 / Pi))
  }

  /** One node of the body-list walk: skipped without a tag or when the entity has no transform. */
  function SyncBody(b: B2Body, ts: map<EntityId, Transform2D>, sf: real): (r: map<EntityId, Transform2D>)
    ensures r.Keys == ts.Keys
    ensures b.tag.None? ==> r == ts
    ensures b.tag.Some? && b.tag.value in ts ==> r[b.tag.value] == SyncedTransform(b, sf)
    ensures forall e :: e in ts && b.tag != Some(e) ==> r[e] == ts[e]
  {
    if b.tag.None? || b.tag.value !in ts then ts else ts[b.tag.value := SyncedTransform(b, sf)]
  }

  /**
   * The walk over `GetBodyList()`. The list starts at the newest body, so the
   * walk visits `bodies` (kept in creation order) from the last element down.
   */
  function SyncList(bodies: seq<B2Body>, ts: map<EntityId, Transform2D>, sf: real): (r: map<EntityId, Transform2D>)
    ensures r.Keys == ts.Keys
  {
    if bodies == [] then ts
    else SyncList(bodies[..|bodies| - 1], SyncBody(bodies[|bodies| - 1], ts, sf), sf)
  }

  /** An entity no body is tagged with keeps its transform. */
  lemma {:induction false} SyncUntouched(bodies: seq<B2Body>, ts: map<EntityId, Transform2D>, sf: real, e: EntityId)
    requires forall k :: 0 <= k < |bodies| ==> bodies[k].tag != Some(e)
    requires e in ts
    ensures e in SyncList(bodies, ts, sf) && SyncList(bodies, ts, sf)[e] == ts[e]
  {
    if bodies != [] {
      SyncUntouched(bodies[..|bodies| - 1], SyncBody(bodies[|bodies| - 1], ts, sf), sf, e);
    }
  }

  /**
   * An entity with a transform ends with the transform of the oldest body tagged
   * with it: that body is the last one the walk reaches.
   */
  lemma {:induction false} SyncOldestWins(bodies: seq<B2Body>, ts: map<EntityId, Transform2D>, sf: real, j: nat)
    requires j < |bodies| && bodies[j].tag.Some? && bodies[j].tag.value in ts
    requires forall k :: 0 <= k < j ==> bodies[k].tag != bodies[j].tag
    ensures bodies[j].tag.value in SyncList(bodies, ts, sf)
    ensures SyncList(bodies, ts, sf)[bodies[j].tag.value] == SyncedTransform(bodies[j], sf)
  {
    var init, last := bodies[..|bodies| - 1], bodies[|bodies| - 1];
    var ts' := SyncBody(last, ts, sf);
    if j == |bodies| - 1 {
      SyncUntouched(init, ts', sf, bodies[j].tag.value);
    } else {
      SyncOldestWins(init, ts', sf, j);
    }
  }

  /** The body made for entity 0 carries a null tag, so the walk never writes entity 0 through it. */
  lemma EntityZeroNeverSynced(bodies: seq<B2Body>, ts: map<EntityId, Transform2D>, sf: real,
                              phys: B2DPhysics, t: Transform2D, f: real)
    requires f != 0.0
    ensures SyncList(bodies + [NewBody(phys, t, f, 0)], ts, sf) == SyncList(bodies, ts, sf)
  {
    assert (bodies + [NewBody(phys, t, f, 0)])[..|bodies|] == bodies;
  }

  /**
   * Round trip: a body created for an entity at its transform, synced before any
   * step with the same factor, gives back exactly that transform.
   */
  lemma CreateThenSync(bodies: seq<B2Body>, ts: map<EntityId, Transform2D>, phys: B2DPhysics, e: EntityId, f: real)
    requires f != 0.0 && e != 0 && e in ts
    requires forall k :: 0 <= k < |bodies| ==> bodies[k].tag != Some(e)
    ensures e in SyncList(bodies + [NewBody(phys, ts[e], f, e)], ts, f)
    ensures SyncList(bodies + [NewBody(phys, ts[e], f, e)], ts, f)[e] == ts[e]
  {
    var b := NewBody(phys, ts[e], f, e);
    SyncUndoesCreate(phys, ts[e], f, e);
    SyncOldestWins(bodies + [b], ts, f, |bodies|);
  }

  /** Writing back a freshly created body at the same factor restores the transform it was made from. */
  lemma SyncUndoesCreate(phys: B2DPhysics, t: Transform2D, f: real, e: EntityId)
    requires f != 0.0
    ensures SyncedTransform(NewBody(phys, t, f, e), f) == t
  {
    var b := NewBody(phys, t, f, e);
    var back := SyncedTransform(b, f);
    assert back.angle * Pi == t.angle * Pi;
  }

  /** `n` engine steps. */
  function Advanced(n: nat, bodies: seq<B2Body>, advance: seq<B2Body> -> seq<B2Body>): seq<B2Body>
  {
    if n == 0 then bodies else advance(Advanced(n - 1, bodies, advance))
  }

  /** `a` steps and then `b` more are `a + b` steps. */
  lemma {:induction false} AdvancedCompose(a: nat, b: nat, bodies: seq<B2Body>, advance: seq<B2Body> -> seq<B2Body>)
    ensures Advanced(b, Advanced(a, bodies, advance), advance) == Advanced(a + b, bodies, advance)
  {
    if b > 0 {
      AdvancedCompose(a, b - 1, bodies, advance);
    }
  }

  // ---------------------------------------------------------------------------
  // Settings

  /** The scale factor after `setting(key, val)`. */
  function SettingApplied(sf: real, key: string, val: SettingValue): (r: real)
    ensures key != "scale-factor" || val.StringValue? ==> r == sf
    ensures r != sf ==> key == "scale-factor"
  {
    if key == "scale-factor" then
      match val
      case IntValue(i) => i as real
      case FloatValue(x) => x
      case StringValue(_) => sf
    else sf
  }

  /**
   * Only "scale-factor" with an int or a float changes the factor; a string value
   * or any other key leaves it; repeating a call changes nothing more.
   */
  lemma SettingRules(sf: real, key: string, val: SettingValue)
    ensures key != "scale-factor" || val.StringValue? ==> SettingApplied(sf, key, val) == sf
    ensures key == "scale-factor" && val.IntValue? ==> SettingApplied(sf, key, val) == val.i as real
    ensures key == "scale-factor" && val.FloatValue? ==> SettingApplied(sf, key, val) == val.f
    ensures SettingApplied(SettingApplied(sf, key, val), key, val) == SettingApplied(sf, key, val)
  {
  }

  // ---------------------------------------------------------------------------
  // The system and its component

  class Box2DSystem {
    /** The accumulator of unstepped frame time. */
    var step: Millis
    /** Simulation units to transform units, applied by the write-back. */
    var scaleFactor: real
    /** The bodies of the world, in creation order. */
    var bodies: seq<B2Body>
    /** The steps and sync passes `update` has made. */
    ghost var trace: seq<Event>

    constructor ()
      ensures step == 0.0 && scaleFactor == DefaultScaleFactor && bodies == [] && trace == []
    {
      step := 0.0;
      scaleFactor := DefaultScaleFactor;
      bodies := [];
      trace := [];
    }

    /** The walk over the body list with `replace<Transform2D>`. */
    method SyncBodies(reg: Registry<B2DPhysics>)
      modifies reg
      ensures reg.transforms == SyncList(bodies, old(reg.transforms), scaleFactor)
      ensures reg.components == old(reg.components)
    {
      var i := |bodies|;
      assert bodies[..i] == bodies;
      while i > 0
        invariant 0 <= i <= |bodies|
        invariant SyncList(bodies[..i], reg.transforms, scaleFactor) == SyncList(bodies, old(reg.transforms), scaleFactor)
        invariant reg.components == old(reg.components)
      {
        var b := bodies[i - 1];
        assert bodies[..i][..i - 1] == bodies[..i - 1];
        i := i - 1;
        if b.tag.None? {
          continue;
        }
        var e := b.tag.value;
        if e !in reg.transforms {
          continue;
        }
        reg.ReplaceTransform(e, SyncedTransform(b, scaleFactor));
      }
    }

    /** One `m_world->Step`. */
    method StepWorld(advance: seq<B2Body> -> seq<B2Body>)
      modifies this
      ensures bodies == advance(old(bodies)) && trace == old(trace) + [Stepped]
      ensures step == old(step) && scaleFactor == old(scaleFactor)
    {
      bodies := advance(bodies);
      trace := trace + [Stepped];
    }

    /**
     * `Box2DSystem::update`: accumulate the frame time, clamp past 100 ms, step
     * in 16 ms units, then write back once whether or not a step ran.
     */
    method Update(frame: Millis, reg: Registry<B2DPhysics>, advance: seq<B2Body> -> seq<B2Body>)
      modifies this, reg
      ensures var p := Plan(old(step), frame);
        && step == p.remainder
        && bodies == Advanced(p.steps, old(bodies), advance)
        && reg.transforms == SyncList(bodies, old(reg.transforms), scaleFactor)
        && trace == old(trace) + Box2DTrace(p.steps)
      ensures scaleFactor == old(scaleFactor) && reg.components == old(reg.components)
    {
      ghost var p := Plan(old(step), frame);
      step := step + frame;
      if step > ClampMs {
        assert p == FramePlan(1 + Drain(0.0).steps, Drain(0.0).remainder);
        step := 0.0;
        StepWorld(advance);
        assert trace == old(trace) + Repeat([Stepped], 1);
        StepLoop(advance);
        AdvancedCompose(1, Drain(0.0).steps, old(bodies), advance);
        RepeatCompose([Stepped], 1, Drain(0.0).steps);
      } else {
        assert p == Drain(step);
        StepLoop(advance);
      }
      assert bodies == Advanced(p.steps, old(bodies), advance);
      assert trace == old(trace) + Repeat([Stepped], p.steps);
      SyncBodies(reg);
      trace := trace + [Synced];
    }

    /** The 16 ms loop of `update`: one world step per whole 16 ms, with no write-back. */
    method StepLoop(advance: seq<B2Body> -> seq<B2Body>)
      modifies this
      ensures var k := Drain(old(step)).steps;
        && step == Drain(old(step)).remainder
        && bodies == Advanced(k, old(bodies), advance)
        && trace == old(trace) + Repeat([Stepped], k)
      ensures scaleFactor == old(scaleFactor)
    {
      ghost var n: nat := 0;
      while step >= StepMs
        invariant n + Drain(step).steps == Drain(old(step)).steps
        invariant Drain(step).remainder == Drain(old(step)).remainder
        invariant bodies == Advanced(n, old(bodies), advance)
        invariant trace == old(trace) + Repeat([Stepped], n)
        invariant scaleFactor == old(scaleFactor)
        decreases Drain(step).steps
      {
        DrainUnfold(step);
        StepWorld(advance);
        step := step - StepMs;
        n := n + 1;
      }
    }

    /** `Box2DSystem::setting`. */
    method Setting(key: string, val: SettingValue)
      modifies this
      ensures scaleFactor == SettingApplied(old(scaleFactor), key, val)
      ensures step == old(step) && bodies == old(bodies) && trace == old(trace)
    {
      if key == "scale-factor" {
        if val.IntValue? {
          scaleFactor := val.i as real;
        } else if val.FloatValue? {
          scaleFactor := val.f;
        }
      }
    }
  }

  /**
   * The "physics2d" component of this binding; `sys` is the system whose
   * `factor()` (declared in Box2DSystem.h) is taken to be its scale factor.
   */
  class Box2DComponent {
    const sys: Box2DSystem

    constructor (sys: Box2DSystem)
      ensures this.sys == sys
    {
      this.sys := sys;
    }

    /**
     * `Box2DComponent::add`: reads the configuration into a B2DPhysics and
     * assigns it. A failed conversion, or a box with fewer than two values,
     * ends the call before the registry is changed.
     */
    method Add(reg: Registry<B2DPhysics>, e: EntityId, cfg: Object) returns (r: Result<(), ConfigError>)
      requires sys.scaleFactor != 0.0
      requires e !in reg.components
      modifies reg
      ensures reg.transforms == old(reg.transforms)
      ensures ReadPhysics(cfg, sys.scaleFactor).Ok? ==>
        r == Ok(()) && reg.components == old(reg.components)[e := ReadPhysics(cfg, sys.scaleFactor).value]
      ensures ReadPhysics(cfg, sys.scaleFactor).Err? ==>
        r == Err(ReadPhysics(cfg, sys.scaleFactor).error) && reg.components == old(reg.components)
    {
      var f := sys.scaleFactor;
      var phys := B2DPhysics(NumberOr(cfg, "friction", 1.0), NumberOr(cfg, "restitution", 0.3),
                             NumberOr(cfg, "mass", 1.0), 0, None, []);
      phys := phys.(kind := KindCode(cfg));

      var box := ReadArray(cfg, "box");
      if box.Err? {
        return Err(box.error);
      }
      if box.value.Some? {
        var sm := box.value.value;
        if |sm| < 2 {
          return Err(TooFewValues("box", 2));
        }
        phys := phys.(shapes := phys.shapes + [BoxShape((sm[0] / 2.0) / f, (sm[1] / 2.0) / f)]);
      }
      assert phys.shapes == BoxShapes(box.value, f);

      var poly := ReadArray(cfg, "polygon");
      if poly.Err? {
        return Err(poly.error);
      }
      if poly.value.Some? {
        var sm := DividedCopy(poly.value.value, f);
        phys := phys.(shapes := phys.shapes + [PolygonShape(Vertices(sm[..]))]);
      }
      assert phys.shapes == BoxShapes(box.value, f) + PolygonShapes(poly.value, f);

      var circs := ReadArray(cfg, "circles");
      if circs.Err? {
        return Err(circs.error);
      }
      if circs.value.Some? {
        var sm := DividedCopy(circs.value.value, f);
        var shapes := AppendCircles(phys.shapes, sm);
        phys := phys.(shapes := shapes);
      }
      assert phys.shapes == BoxShapes(box.value, f) + PolygonShapes(poly.value, f) + CircleShapes(circs.value, f);
      assert ReadPhysics(cfg, f) == Ok(phys);

      reg.AssignComponent(e, phys);
      return Ok(());
    }

    /**
     * `Box2DComponent::create_instance`: the entity must already carry its
     * B2DPhysics and a Transform2D. Adds one body with one fixture per stored
     * shape, records it in the component, and returns true.
     */
    method CreateInstance(reg: Registry<B2DPhysics>, e: EntityId) returns (created: bool)
      requires e in reg.components && e in reg.transforms
      requires sys.scaleFactor != 0.0
      modifies sys, reg
      ensures created
      ensures reg.transforms == old(reg.transforms)
      ensures sys.step == old(sys.step) && sys.scaleFactor == old(sys.scaleFactor) && sys.trace == old(sys.trace)
      ensures sys.bodies == old(sys.bodies) + [NewBody(old(reg.components[e]), reg.transforms[e], sys.scaleFactor, e)]
      ensures reg.components == old(reg.components)[e := old(reg.components[e]).(body := Some(|old(sys.bodies)|))]
    {
      var phys := reg.components[e];
      var trans := reg.transforms[e];
      var f := sys.scaleFactor;
      var def := B2Body(KindOf(phys.kind), Vec2(trans.x / f, trans.y / f), trans.angle * (Pi / 180.0), EncodeTag(e), []);
      var n := |sys.bodies|;
      sys.bodies := sys.bodies + [def];
      phys := phys.(body := Some(n));
      reg.ReplaceComponent(e, phys);

      var i := 0;
      while i < |phys.shapes|
        invariant 0 <= i <= |phys.shapes|
        invariant |sys.bodies| == n + 1 && sys.bodies[..n] == old(sys.bodies)
        invariant sys.bodies[n] == def.(fixtures := Fixtures(phys)[..i])
        invariant sys.step == old(sys.step) && sys.scaleFactor == f && sys.trace == old(sys.trace)
        invariant reg.components == old(reg.components)[e := phys] && reg.transforms == old(reg.transforms)
      {
        var fixture := Fixture(phys.shapes[i], 1.0, phys.friction, phys.restitution);
        assert Fixtures(phys)[..i + 1] == Fixtures(phys)[..i] + [fixture];
        sys.bodies := sys.bodies[n := sys.bodies[n].(fixtures := sys.bodies[n].fixtures + [fixture])];
        i := i + 1;
      }
      assert Fixtures(phys)[..i] == Fixtures(phys);
      assert Fixtures(phys) == Fixtures(old(reg.components[e]));
      assert sys.bodies == sys.bodies[..n] + [sys.bodies[n]];
      return true;
    }
  }
}
