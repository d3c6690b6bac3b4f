// The destructible props (components/Interactables.tsx): 150 stones and branches
// that shatter when the player walks into them, fall under gravity, stop on the
// ground and fade out. Each frame walks the object list in place and writes one
// instance transform per object. Math.random draws and the frame delta are parameters.

module Interactables {
  import opened Types
  import opened Constants

  const DestructibleCount: nat := 150
  const Gravity: real := -25.0
  /** The frame step is capped here so a slow frame does not throw props far. */
  const MaxStep: real := 0.05
  /** The trigger distance 1.3, squared. */
  const TriggerDistSq: real := 1.69

  datatype PropKind = Rock | Branch

  /** One prop; life runs from 1 down to 0 after it is destroyed. */
  datatype Prop = Prop(position: Vec3, kind: PropKind, scale: real, destroyed: bool,
                       rotationY: real, velocity: Vec3, life: real)

  /** The transform written for a prop: shown at a place and uniform scale, or
      collapsed to zero scale. */
  datatype Instance = Shown(position: Vec3, rotationY: real, scale: real) | Collapsed

  /** The five Math.random draws that place one prop. */
  datatype PropRoll = PropRoll(x: real, z: real, kind: real, scale: real, turn: real)

  /** The three Math.random draws of a burst. */
  datatype BurstRoll = BurstRoll(x: real, y: real, z: real)

  predicate PropRollValid(r: PropRoll)
  {
    AllUnit([r.x, r.z, r.kind, r.scale, r.turn])
  }

  predicate BurstRollValid(r: BurstRoll)
  {
    AllUnit([r.x, r.y, r.z])
  }

  /** A prop as created at mount: intact, full life, at rest just above the ground. */
  function NewProp(r: PropRoll): (p: Prop)
    ensures !p.destroyed && p.life == 1.0 && p.velocity == Vec3(0.0, 0.0, 0.0)
    ensures p.position.y == 0.1
  {
    Prop(Vec3((r.x - 0.5) * WorldSize * 1.8, 0.1, (r.z - 0.5) * WorldSize * 1.8),
         if r.kind > 0.5 then Rock else Branch,
         0.5 + r.scale * 0.8, false, r.turn * Pi, Vec3(0.0, 0.0, 0.0), 1.0)
  }

  /** Props are scattered over a square of half-width 225 and sized in [0.5, 1.3). */
  lemma NewPropBounds(r: PropRoll)
    requires PropRollValid(r)
    ensures var p := NewProp(r);
      && -225.0 <= p.position.x < 225.0 && -225.0 <= p.position.z < 225.0
      && 0.5 <= p.scale < 1.3
  {
    assert [r.x, r.z, r.kind, r.scale, r.turn][0] == r.x;
    assert [r.x, r.z, r.kind, r.scale, r.turn][1] == r.z;
    assert [r.x, r.z, r.kind, r.scale, r.turn][3] == r.scale;
  }

  /** The capped step Math.min(delta, 0.05). */
  function FrameStep(delta: real): (dt: real)
    ensures dt <= MaxStep
    ensures dt == delta || dt == MaxStep
    ensures delta <= MaxStep ==> dt == delta
  {
    Min(delta, MaxStep)
  }

  /** The burst given to a prop the moment it is destroyed. */
  function Burst(r: BurstRoll): Vec3
  {
    Vec3((r.x - 0.5) * 2.0, 2.0 + r.y * 2.0, (r.z - 0.5) * 2.0)
  }

  /** The burst is a small hop: upward 2 to 4, sideways less than 1 either way. */
  lemma BurstBounds(r: BurstRoll)
    requires BurstRollValid(r)
    ensures var v := Burst(r);
      -1.0 <= v.x < 1.0 && 2.0 <= v.y < 4.0 && -1.0 <= v.z < 1.0
  {
    assert [r.x, r.y, r.z][0] == r.x && [r.x, r.y, r.z][1] == r.y && [r.x, r.y, r.z][2] == r.z;
  }

  /** One shatter step of a destroyed prop with life left: gravity, motion, fade,
      and a stop on the ground. */
  function Shatter(p: Prop, dt: real): (q: Prop)
    ensures q.destroyed == p.destroyed && q.scale == p.scale && q.rotationY == p.rotationY
    ensures q.life == p.life - dt * 0.8
    ensures q.position.y >= 0.0
  {
    var v := Vec3(p.velocity.x, p.velocity.y + Gravity * dt, p.velocity.z);
    var pos := Add(p.position, Scale(v, dt));
    if pos.y < 0.0 then
      p.(position := Vec3(pos.x, 0.0, pos.z), velocity := Vec3(0.0, 0.0, 0.0), life := p.life - dt * 0.8)
    else
      p.(position := pos, velocity := v, life := p.life - dt * 0.8)
  }

  /** What one frame does to a prop and the transform it writes for it, given the
      player's position on the ground and the burst draws it would use. */
  function StepProp(p: Prop, player: Vec3, dt: real, r: BurstRoll): (Prop, Instance)
  {
    if p.destroyed then
      if p.life > 0.0 then
        var q := Shatter(p, dt);
        (q, Shown(q.position, q.rotationY, q.scale * Max(0.0, q.life)))
      else
        (p, Collapsed)
    else if DistSq(p.position, player) < TriggerDistSq then
      var q := p.(destroyed := true, velocity := Burst(r));
      (q, Shown(q.position, q.rotationY, q.scale))
    else
      (p, Shown(p.position, p.rotationY, p.scale))
  }

  lemma ShatterStep(p: Prop, player: Vec3, dt: real, r: BurstRoll)
    requires p.destroyed && p.life > 0.0
    ensures var q := Shatter(p, dt);
      StepProp(p, player, dt, r).0 == q
      && StepProp(p, player, dt, r).1 == Shown(q.position, q.rotationY, q.scale * Max(0.0, q.life))
  {
  }

  /** The latch: an intact prop is destroyed exactly when the player is within
      1.3 of it, and a destroyed prop stays destroyed. */
  lemma StepLatch(p: Prop, player: Vec3, dt: real, r: BurstRoll)
    ensures p.destroyed ==> StepProp(p, player, dt, r).0.destroyed
    ensures !p.destroyed ==>
      (StepProp(p, player, dt, r).0.destroyed <==> DistSq(p.position, player) < TriggerDistSq)
  {
  }

  /** Intact props do not move: the frame that destroys one only gives it its burst. */
  lemma IntactStaysPut(p: Prop, player: Vec3, dt: real, r: BurstRoll)
    requires !p.destroyed
    ensures StepProp(p, player, dt, r).0.position == p.position
    ensures StepProp(p, player, dt, r).0.life == p.life
    ensures StepProp(p, player, dt, r).1 == Shown(p.position, p.rotationY, p.scale)
    ensures !StepProp(p, player, dt, r).0.destroyed ==> StepProp(p, player, dt, r).0 == p
  {
  }

  /** A prop above the ground stays on or above it. */
  lemma StepKeepsAboveGround(p: Prop, player: Vec3, dt: real, r: BurstRoll)
    requires p.position.y >= 0.0
    ensures StepProp(p, player, dt, r).0.position.y >= 0.0
  {
  }

  /** The drawn size of a shattering prop is its scale times what is left of its
      life, never negative; once life is gone it is drawn collapsed and stays so. */
  lemma StepDrawnScale(p: Prop, player: Vec3, dt: real, r: BurstRoll)
    requires p.destroyed && p.scale >= 0.0 && dt >= 0.0
    ensures p.life <= 0.0 ==> StepProp(p, player, dt, r) == (p, Collapsed)
    ensures p.life > 0.0 ==>
      var (q, inst) := StepProp(p, player, dt, r);
      && q.life == p.life - 0.8 * dt
      && inst.Shown? && inst.scale == p.scale * Max(0.0, q.life) && inst.scale >= 0.0
      && (q.life <= 0.0 ==> inst.scale == 0.0)
  {
    if p.life > 0.0 {
      var q := Shatter(p, dt);
      MulNonNegative(p.scale, Max(0.0, q.life));
    }
  }

  lemma MulNonNegative(x: real, y: real)
    requires x >= 0.0 && y >= 0.0
    ensures x * y >= 0.0
  {
  }

  /** Life only decreases while a destroyed prop fades, so a collapsed prop never reappears. */
  lemma {:induction false} FadeIsFinal(p: Prop, player: Vec3, dts: seq<real>, rolls: seq<BurstRoll>)
    requires p.destroyed && p.life <= 0.0 && |rolls| == |dts|
    ensures Run(p, player, dts, rolls) == p
  {
    if dts != [] {
      FadeIsFinal(StepProp(p, player, dts[0], rolls[0]).0, player, dts[1..], rolls[1..]);
    }
  }

  /** A prop after a run of frames with a fixed player position. */
  function Run(p: Prop, player: Vec3, dts: seq<real>, rolls: seq<BurstRoll>): Prop
    requires |rolls| == |dts|
    decreases |dts|
  {
    if dts == [] then p else Run(StepProp(p, player, dts[0], rolls[0]).0, player, dts[1..], rolls[1..])
  }

  class Props {
    var objects: array<Prop>
    var instances: array<Instance>

    /** 150 props and a transform slot for each; none below the ground. */
    ghost predicate Valid()
      reads this, objects
    {
      && objects.Length == DestructibleCount
      && instances.Length == DestructibleCount
      && forall i :: 0 <= i < objects.Length ==> objects[i].position.y >= 0.0
    }

    /** Mounting: one prop per roll, all intact, full life, at rest. */
    constructor (rolls: seq<PropRoll>)
      requires |rolls| == DestructibleCount
      ensures Valid() && fresh(objects) && fresh(instances)
      ensures forall i :: 0 <= i < objects.Length ==> objects[i] == NewProp(rolls[i])
      ensures forall i :: 0 <= i < objects.Length ==>
        !objects[i].destroyed && objects[i].life == 1.0 && objects[i].velocity == Vec3(0.0, 0.0, 0.0)
    {
      var data := new Prop[DestructibleCount](i requires 0 <= i < DestructibleCount => NewProp(rolls[i]));
      objects := data;
      instances := new Instance[DestructibleCount](_ => Collapsed);
    }

    /** One frame: every prop is stepped in place and its transform written. */
    method Frame(camera: Vec3, delta: real, bursts: seq<BurstRoll>)
      requires Valid() && |bursts| == objects.Length
      modifies objects, instances
      ensures Valid()
      ensures forall i :: 0 <= i < objects.Length ==>
        objects[i] == StepProp(old(objects[i]), Ground(camera), FrameStep(delta), bursts[i]).0
        && instances[i] == StepProp(old(objects[i]), Ground(camera), FrameStep(delta), bursts[i]).1
      ensures forall i :: 0 <= i < objects.Length ==>
        old(objects[i]).destroyed ==> objects[i].destroyed
    {
      var playerPos := Vec3(camera.x, 0.0, camera.z);
      var dt := Min(delta, 0.05);
      for i := 0 to objects.Length
        invariant forall k :: 0 <= k < i ==>
          objects[k] == StepProp(old(objects[k]), playerPos, dt, bursts[k]).0
          && instances[k] == StepProp(old(objects[k]), playerPos, dt, bursts[k]).1
        invariant forall k :: 0 <= k < i ==> objects[k].position.y >= 0.0
        invariant forall k :: i <= k < objects.Length ==> objects[k] == old(objects[k])
      {
        var obj := objects[i];
        var inst: Instance;
        if obj.destroyed {
          if obj.life > 0.0 {
            var v := Vec3(obj.velocity.x, obj.velocity.y + Gravity * dt, obj.velocity.z);
            var pos := Add(obj.position, Scale(v, dt));
            obj := obj.(velocity := v, position := pos, life := obj.life - dt * 0.8);
            if obj.position.y < 0.0 {
              obj := obj.(position := obj.position.(y := 0.0), velocity := Vec3(0.0, 0.0, 0.0));
            }
            var currentScale := obj.scale * Max(0.0, obj.life);
            inst := Shown(obj.position, obj.rotationY, currentScale);
            ShatterStep(objects[i], playerPos, dt, bursts[i]);
          } else {
            inst := Collapsed;
          }
        } else {
          if DistSq(obj.position, playerPos) < 1.69 {
            var r := bursts[i];
            obj := obj.(destroyed := true, velocity := Vec3((r.x - 0.5) * 2.0, 2.0 + r.y * 2.0, (r.z - 0.5) * 2.0));
          }
          inst := Shown(obj.position, obj.rotationY, obj.scale);
        }
        assert obj == StepProp(objects[i], playerPos, dt, bursts[i]).0 && inst == StepProp(objects[i], playerPos, dt, bursts[i]).1;
        StepKeepsAboveGround(objects[i], playerPos, dt, bursts[i]);
        objects[i] := obj;
        instances[i] := inst;
      }
    }
  }
}
