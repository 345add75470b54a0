/**
 * The fixed-timestep accumulator both bindings run in `update`, on real
 * milliseconds, and the record of engine calls a frame makes.
 */
module Timestep {

  /** A duration in milliseconds. */
  type Millis = real

  /** Above this accumulated time a frame is clamped to a single step. */
  const ClampMs: Millis := 100.0

  /** The wall-clock time one physics step accounts for. */
  const StepMs: Millis := 16.0

  /** How many steps one `update` call runs, and what is left in the accumulator. */
  datatype FramePlan = FramePlan(steps: nat, remainder: Millis)

  /**
   * The `while (step >= 16ms)` loop: one step per whole 16 ms, subtracting 16 ms
   * each time; what is left stays in the accumulator.
   */
  function Drain(acc: Millis): (p: FramePlan)
    ensures p.remainder == acc - StepMs * p.steps as real
    ensures p.remainder < StepMs
    ensures acc >= 0.0 ==> 0.0 <= p.remainder
    ensures acc < StepMs ==> p.steps == 0
    decreases acc.Floor
  {
    if acc >= StepMs then
      var rest := Drain(acc - StepMs);
      FramePlan(rest.steps + 1, rest.remainder)
    else
      FramePlan(0, acc)
  }

  /**
   * One `update` call: the frame time is added to the accumulator; past the
   * clamp the accumulator is reset and one step is forced, and the loop then
   * drains what is left.
   */
  function Plan(prev: Millis, frame: Millis): (p: FramePlan)
    ensures p.remainder < StepMs
    ensures prev + frame >= 0.0 ==> 0.0 <= p.remainder
    ensures prev + frame > ClampMs ==> p.steps == 1 && p.remainder == 0.0
  {
    var acc := prev + frame;
    if acc > ClampMs then
      var rest := Drain(0.0);
      FramePlan(1 + rest.steps, rest.remainder)
    else
      Drain(acc)
  }

  /** One pass of the loop: from at least 16 ms, one step more than from 16 ms less, same remainder. */
  lemma DrainUnfold(acc: Millis)
    ensures acc >= StepMs ==> Drain(acc) == FramePlan(Drain(acc - StepMs).steps + 1, Drain(acc - StepMs).remainder)
  {
  }

  /** On a non-negative accumulator the loop runs floor(acc / 16) times. */
  lemma DrainIsFloor(acc: Millis)
    requires acc >= 0.0
    ensures Drain(acc).steps == (acc / StepMs).Floor
  {
    var p := Drain(acc);
    assert p.steps as real <= acc / StepMs < p.steps as real + 1.0;
  }

  /** Past the clamp exactly one step runs, the accumulator ends at zero and the loop does not run. */
  lemma PlanClamped(prev: Millis, frame: Millis)
    requires prev + frame > ClampMs
    ensures Plan(prev, frame) == FramePlan(1, 0.0)
    ensures Drain(0.0).steps == 0
  {
  }

  /**
   * Up to the clamp the step count is floor(acc / 16), the remainder is acc mod
   * 16, no time is lost, and at most six steps run.
   */
  lemma PlanUnclamped(prev: Millis, frame: Millis)
    requires 0.0 <= prev + frame <= ClampMs
    ensures var p := Plan(prev, frame);
      && p.steps == ((prev + frame) / StepMs).Floor
      && p.remainder == prev + frame - StepMs * p.steps as real
      && 0.0 <= p.remainder < StepMs
      && p.steps <= 6
  {
    DrainIsFloor(prev + frame);
  }

  /** With non-negative inputs the accumulator stays in [0, 16) and a frame runs at most six steps. */
  lemma PlanBounded(prev: Millis, frame: Millis)
    requires 0.0 <= prev && 0.0 <= frame
    ensures 0.0 <= Plan(prev, frame).remainder < StepMs
    ensures Plan(prev, frame).steps <= 6
    ensures Plan(prev, frame).steps >= 1 <==> prev + frame >= StepMs
  {
    if prev + frame <= ClampMs {
      PlanUnclamped(prev, frame);
    }
  }

  /** The result of a sequence of frames: total steps and the final accumulator. */
  function PlanFrames(prev: Millis, frames: seq<Millis>): FramePlan
    decreases |frames|
  {
    if frames == [] then FramePlan(0, prev)
    else
      var first := Plan(prev, frames[0]);
      var rest := PlanFrames(first.remainder, frames[1..]);
      FramePlan(first.steps + rest.steps, rest.remainder)
  }

  /** No frame of the sequence reaches the clamp. */
  ghost predicate NeverClamped(prev: Millis, frames: seq<Millis>)
    decreases |frames|
  {
    frames == [] ||
    (prev + frames[0] <= ClampMs && NeverClamped(Plan(prev, frames[0]).remainder, frames[1..]))
  }

  function Sum(frames: seq<Millis>): Millis
  {
    if frames == [] then 0.0 else frames[0] + Sum(frames[1..])
  }

  /** Without a clamp no time drifts: steps times 16 ms plus the remainder is all the time fed in. */
  lemma {:induction false} NoDrift(prev: Millis, frames: seq<Millis>)
    requires NeverClamped(prev, frames)
    ensures var p := PlanFrames(prev, frames);
      StepMs * p.steps as real + p.remainder == prev + Sum(frames)
    decreases |frames|
  {
    if frames != [] {
      NoDrift(Plan(prev, frames[0]).remainder, frames[1..]);
    }
  }

  /** A call the host makes on the engine during `update`. */
  datatype Event = Stepped | Synced

  /** `block` repeated `n` times. */
  function Repeat<T>(block: seq<T>, n: nat): seq<T>
  {
    if n == 0 then [] else Repeat(block, n - 1) + block
  }

  function Count(t: seq<Event>, ev: Event): nat
  {
    if t == [] then 0 else Count(t[..|t| - 1], ev) + (if t[|t| - 1] == ev then 1 else 0)
  }

  lemma {:induction false} CountAppend(a: seq<Event>, b: seq<Event>, ev: Event)
    ensures Count(a + b, ev) == Count(a, ev) + Count(b, ev)
    decreases |b|
  {
    if b != [] {
      assert (a + b)[..|a + b| - 1] == a + b[..|b| - 1];
      CountAppend(a, b[..|b| - 1], ev);
    } else {
      assert a + b == a;
    }
  }

  /** Repeating a block `a` times and then `b` times repeats it `a + b` times. */
  lemma {:induction false} RepeatCompose<T>(block: seq<T>, a: nat, b: nat)
    ensures Repeat(block, a) + Repeat(block, b) == Repeat(block, a + b)
  {
    if b > 0 {
      RepeatCompose(block, a, b - 1);
    }
  }

  /** A frame of the Chipmunk binding: each step is followed by one sync pass. */
  function ChipmunkTrace(steps: nat): seq<Event>
  {
    Repeat([Stepped, Synced], steps)
  }

  /** A frame of the Box2D binding: the steps, then one sync pass whether or not a step ran. */
  function Box2DTrace(steps: nat): seq<Event>
  {
    Repeat([Stepped], steps) + [Synced]
  }

  /** In the Chipmunk binding syncs equal steps and every step is immediately followed by a sync. */
  lemma {:induction false} ChipmunkSyncsEveryStep(n: nat)
    ensures Count(ChipmunkTrace(n), Stepped) == n
    ensures Count(ChipmunkTrace(n), Synced) == n
    ensures |ChipmunkTrace(n)| == 2 * n
    ensures forall i :: 0 <= i < |ChipmunkTrace(n)| ==>
      ChipmunkTrace(n)[i] == (if i % 2 == 0 then Stepped else Synced)
  {
    if n > 0 {
      ChipmunkSyncsEveryStep(n - 1);
      CountAppend(ChipmunkTrace(n - 1), [Stepped, Synced], Stepped);
      CountAppend(ChipmunkTrace(n - 1), [Stepped, Synced], Synced);
      assert [Stepped, Synced][..1] == [Stepped];
    }
  }

  /** In the Box2D binding a frame syncs exactly once, last, even when no step ran. */
  lemma {:induction false} Box2DSyncsOnce(n: nat)
    ensures Count(Box2DTrace(n), Stepped) == n
    ensures Count(Box2DTrace(n), Synced) == 1
    ensures Box2DTrace(n)[|Box2DTrace(n)| - 1] == Synced
    ensures forall i :: 0 <= i < |Box2DTrace(n)| - 1 ==> Box2DTrace(n)[i] == Stepped
  {
    RepeatSteps(n);
    CountAppend(Repeat([Stepped], n), [Synced], Stepped);
    CountAppend(Repeat([Stepped], n), [Synced], Synced);
  }

  lemma {:induction false} RepeatSteps(n: nat)
    ensures |Repeat([Stepped], n)| == n
    ensures forall i :: 0 <= i < n ==> Repeat([Stepped], n)[i] == Stepped
    ensures Count(Repeat([Stepped], n), Stepped) == n
    ensures Count(Repeat([Stepped], n), Synced) == 0
  {
    if n > 0 {
      RepeatSteps(n - 1);
    }
  }
}
