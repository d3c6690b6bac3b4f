// Animal behaviour and population (components/AnimalsController.tsx).
//
// Each animal is an AnimalEntity whose refs and React state are fields: the
// interval callback, the per-frame tick and the hit handler are methods. The
// population is a Controller holding the spawn records, the respawns whose
// 20-second timers are running, and the per-species centroids. The frame clock,
// Date.now and Math.random are parameters; the unit vectors that three.js gets
// from normalize() are parameters too, and distances are compared squared.

module AnimalsController {
  import opened Types
  import opened Constants
  import GameStore

  // ----------------------------------------------------------------------
  // Perception

  /** Sight is cut to 40% in fog and 35% in storms. */
  function VisibilityMod(w: Weather): real
  {
    if w == Foggy then 0.4 else if w == Stormy then 0.35 else 1.0
  }

  /** Hearing is cut to 40% in storms. */
  function HearingMod(w: Weather): real
  {
    if w == Stormy then 0.4 else 1.0
  }

  /** The running hearing range below 90 stamina, otherwise the literal 15 of the
      perception test (not the DETECTION table's idle range of 6). */
  function HearingRange(stamina: real): real
  {
    if stamina < 90.0 then HearingRun else 15.0
  }

  /** The detection test on the animal-to-player distance d. */
  predicate Detects(d: real, w: Weather, stamina: real)
  {
    || d < SightRange * VisibilityMod(w)
    || d < ScentRange
    || d < HearingRange(stamina) * HearingMod(w)
  }

  /** The one radius the three ranges amount to, worked out per weather. */
  function DetectionRadius(w: Weather, stamina: real): real
  {
    match w
    case Clear => 45.0
    case Rainy => 45.0
    case Foggy => if stamina < 90.0 then 38.0 else 18.0
    case Stormy => 18.0
  }

  /** Detection is exactly "closer than the weather's radius"; bad weather only shrinks it. */
  lemma DetectsWithinRadius(d: real, w: Weather, stamina: real)
    ensures Detects(d, w, stamina) <==> d < DetectionRadius(w, stamina)
    ensures Detects(d, w, stamina) ==> Detects(d, Clear, stamina)
    ensures d < ScentRange ==> Detects(d, w, stamina)
  {
  }

  function Sq(r: real): real { r * r }

  /** The detection test on the squared distance, as the model evaluates it. */
  predicate DetectsSq(dsq: real, w: Weather, stamina: real)
  {
    || dsq < Sq(SightRange * VisibilityMod(w))
    || dsq < Sq(ScentRange)
    || dsq < Sq(HearingRange(stamina) * HearingMod(w))
  }

  lemma SquareMonotone(d: real, r: real)
    requires d >= 0.0 && r >= 0.0
    ensures d < r <==> Sq(d) < Sq(r)
  {
    var gap, sum := r - d, r + d;
    assert Sq(r) - Sq(d) == gap * sum;
    if d < r {
      MulPositive(gap, sum);
    } else {
      MulNonNegative(-gap, sum);
      assert (-gap) * sum == -(gap * sum);
    }
  }

  lemma MulPositive(x: real, y: real)
    requires x > 0.0 && y > 0.0
    ensures x * y > 0.0
  {
  }

  lemma MulNonNegative(x: real, y: real)
    requires x >= 0.0 && y >= 0.0
    ensures x * y >= 0.0
  {
  }

  /** Comparing squares decides the same as comparing distances. */
  lemma {:induction false} DetectsSqAgrees(d: real, w: Weather, stamina: real)
    requires d >= 0.0
    ensures DetectsSq(Sq(d), w, stamina) <==> Detects(d, w, stamina)
  {
    SquareMonotone(d, SightRange * VisibilityMod(w));
    SquareMonotone(d, ScentRange);
    SquareMonotone(d, HearingRange(stamina) * HearingMod(w));
  }

  /** The behaviour after one perception check on the squared distance dsq. */
  function Perceive(b: Behavior, dsq: real, w: Weather, stamina: real): Behavior
  {
    if b != Flee && DetectsSq(dsq, w, stamina) then
      (if dsq < Sq(18.0) then Flee else Alert)
    else b
  }

  /** A fleeing animal is never changed by perception; an undetected one is left
      alone; a detected one flees inside 18 and turns alert otherwise. Because the
      scent range is not scaled by weather, anything closer than 18 flees. */
  lemma {:induction false} PerceiveCases(b: Behavior, d: real, w: Weather, stamina: real)
    requires d >= 0.0
    ensures b == Flee ==> Perceive(b, Sq(d), w, stamina) == Flee
    ensures !Detects(d, w, stamina) ==> Perceive(b, Sq(d), w, stamina) == b
    ensures d < 18.0 ==> Perceive(b, Sq(d), w, stamina) == Flee
    ensures b != Flee && Detects(d, w, stamina) && d >= 18.0 ==> Perceive(b, Sq(d), w, stamina) == Alert
  {
    DetectsSqAgrees(d, w, stamina);
    SquareMonotone(d, 18.0);
  }

  // ----------------------------------------------------------------------
  // Movement and trail emission

  /** Per-tick speed: flee 0.22, wander 0.045, nothing otherwise; 0.55 of it when wounded. */
  function Speed(b: Behavior, wounded: bool): real
  {
    (if b == Flee then 0.22 else if b == Wander then 0.045 else 0.0) * (if wounded then 0.55 else 1.0)
  }

  /** Only fleeing and wandering animals move, alert ones stand; wounds slow them and fleeing is fastest. */
  lemma SpeedFacts(b: Behavior, wounded: bool)
    ensures Speed(b, wounded) > 0.0 <==> b == Flee || b == Wander
    ensures Speed(Alert, wounded) == 0.0 && Speed(Idle, wounded) == 0.0
    ensures Speed(b, true) <= Speed(b, false)
    ensures Speed(b, wounded) <= Speed(Flee, wounded)
  {
  }

  predicate EmitsScent(b: Behavior, now: real, lastScent: real) { b != Idle && now - lastScent > 2.5 }

  predicate EmitsBlood(wounded: bool, b: Behavior, now: real, lastBlood: real)
  {
    wounded && b != Idle && now - lastBlood > 1.0
  }

  predicate PerceptionDue(now: real, lastCheck: real) { now - lastCheck > 0.4 }

  /** Beyond 0.8 of the world's half-size from the origin (compared squared). */
  predicate OutOfBounds(p: Vec3) { LengthSq(p) > Sq(WorldSize * 0.8) }

  /** The target the boundary override picks: the origin plus an offset of at most 25 per axis. */
  function HomeTarget(r0: real, r1: real): (t: Vec3)
    requires 0.0 <= r0 < 1.0 && 0.0 <= r1 < 1.0
    ensures -25.0 <= t.x < 25.0 && t.y == 0.0 && -25.0 <= t.z < 25.0
  {
    Add(Vec3(0.0, 0.0, 0.0), Vec3((r0 - 0.5) * 50.0, 0.0, (r1 - 0.5) * 50.0))
  }

  /** The groupCentroid prop: the controller's centroid for the species, or null. */
  function CentroidOf(centroids: map<Species, Vec3>, s: Species): Option<Vec3>
  {
    if s in centroids then Some(centroids[s]) else None
  }

  /** The re-rolled wander target: a random offset of up to 15 per axis, from the
      current position pulled 15 units towards the group centroid when there is one
      and the group roll wins, else from the current position put on the ground.
      invLen is the reciprocal distance to the centroid. */
  function WanderTarget(pos: Vec3, offX: real, offZ: real, groupCentroid: Option<Vec3>, invLen: real,
                        groupRoll: real): Vec3
    requires groupCentroid.Some? ==> InvLength(Sub(groupCentroid.value, pos), invLen)
  {
    var offset := Vec3((offX - 0.5) * 30.0, 0.0, (offZ - 0.5) * 30.0);
    if groupCentroid.Some? && groupRoll > 0.4 then
      Add(Add(pos, Scale(Normalize(Sub(groupCentroid.value, pos), invLen), 15.0)), offset)
    else Vec3(pos.x + offset.x, 0.0, pos.z + offset.z)
  }

  /** Without the group pull the new target is within 15 of the animal on each ground axis. */
  lemma WanderTargetNearby(pos: Vec3, offX: real, offZ: real, groupCentroid: Option<Vec3>, invLen: real,
                           groupRoll: real)
    requires 0.0 <= offX < 1.0 && 0.0 <= offZ < 1.0
    requires groupCentroid.Some? ==> InvLength(Sub(groupCentroid.value, pos), invLen)
    requires groupCentroid.None? || groupRoll <= 0.4
    ensures var t := WanderTarget(pos, offX, offZ, groupCentroid, invLen, groupRoll);
      t.y == 0.0 && -15.0 <= t.x - pos.x < 15.0 && -15.0 <= t.z - pos.z < 15.0
  {
  }

  /** With the group pull the target is the random offset plus a step of exactly
      15 from the animal along the line to the centroid. */
  lemma {:induction false} WanderTowardGroup(pos: Vec3, offX: real, offZ: real, centroid: Vec3, invLen: real,
                                             groupRoll: real)
    requires InvLength(Sub(centroid, pos), invLen) && DistSq(centroid, pos) > 0.0 && groupRoll > 0.4
    ensures var t := WanderTarget(pos, offX, offZ, Some(centroid), invLen, groupRoll);
      var base := Add(pos, Vec3((offX - 0.5) * 30.0, 0.0, (offZ - 0.5) * 30.0));
      && DistSq(t, base) == 225.0
      && Sub(t, base) == Scale(Sub(centroid, pos), 15.0 * invLen)
  {
    NormalizedLength(Sub(centroid, pos), invLen, 15.0);
  }

  /** The flee target of the perception check lies 50 units from the animal, on
      the far side from the player: never closer to the player than the animal. */
  lemma {:induction false} FleeTargetAway(pos: Vec3, player: Vec3, invLen: real)
    requires InvLength(Sub(pos, player), invLen)
    ensures var t := Add(pos, Scale(Normalize(Sub(pos, player), invLen), 50.0));
      && DistSq(t, player) >= DistSq(pos, player)
      && (DistSq(pos, player) > 0.0 ==> DistSq(t, pos) == 2500.0)
  {
    var d := Sub(pos, player);
    var t := Add(pos, Scale(Normalize(d, invLen), 50.0));
    var c := 1.0 + 50.0 * invLen;
    assert Sub(t, player) == Scale(d, c);
    LengthSqScale(d, c);
    assert c * c >= 1.0 by { assert c >= 1.0; MulAtLeastOne(c, c); }
    MulLeq(c * c, LengthSq(d));
    if LengthSq(d) > 0.0 {
      NormalizedLength(d, invLen, 50.0);
      assert Sub(t, pos) == Scale(Normalize(d, invLen), 50.0);
    }
  }

  /** A hit anywhere but the animal's own position moves its target by exactly 60. */
  lemma {:induction false} HitPushLength(target: Vec3, pos: Vec3, hitPoint: Vec3, invLen: real)
    requires InvLength(Sub(pos, hitPoint), invLen) && DistSq(pos, hitPoint) > 0.0
    ensures DistSq(Add(target, Scale(Normalize(Sub(pos, hitPoint), invLen), 60.0)), target) == 3600.0
  {
    var push := Scale(Normalize(Sub(pos, hitPoint), invLen), 60.0);
    NormalizedLength(Sub(pos, hitPoint), invLen, 60.0);
    assert Sub(Add(target, push), target) == push;
  }

  lemma MulAtLeastOne(c: real, e: real)
    requires c >= 1.0 && e >= 1.0
    ensures c * e >= 1.0
  {
  }

  lemma MulLeq(k: real, l: real)
    requires k >= 1.0 && l >= 0.0
    ensures k * l >= l
  {
    assert k * l - l == (k - 1.0) * l;
    MulNonNegative(k - 1.0, l);
  }

  // ----------------------------------------------------------------------
  // Hit resolution

  /** A bear loses 40 per hit, every other species 100. */
  function Damage(s: Species): int { if s == Bear then 40 else 100 }

  /** The part of an animal's state a hit changes. */
  datatype Vitals = Vitals(health: int, isDead: bool, behavior: Behavior)

  /** One handleHit call: the new vitals and whether onKilled fired. Health is not clamped. */
  function AfterHit(s: Species, v: Vitals): (Vitals, bool)
  {
    if v.isDead then (v, false)
    else
      var h := v.health - Damage(s);
      (Vitals(h, h <= 0, Flee), h <= 0)
  }

  /** n hits in a row: the final vitals and how many times onKilled fired. */
  function AfterHits(s: Species, v: Vitals, n: nat): (Vitals, nat)
    decreases n
  {
    if n == 0 then (v, 0)
    else
      var first := AfterHit(s, v);
      var rest := AfterHits(s, first.0, n - 1);
      (rest.0, rest.1 + (if first.1 then 1 else 0))
  }

  /** Hits on a dead animal change nothing and never fire onKilled. */
  lemma {:induction false} DeadIgnoresHits(s: Species, v: Vitals, n: nat)
    requires v.isDead
    ensures AfterHits(s, v, n) == (v, 0)
    decreases n
  {
    if n > 0 {
      DeadIgnoresHits(s, v, n - 1);
    }
  }

  /** However many hits land, onKilled fires at most once, and it has fired exactly
      when a living animal ends up dead. */
  lemma {:induction false} KillFiresAtMostOnce(s: Species, v: Vitals, n: nat)
    ensures AfterHits(s, v, n).1 <= 1
    ensures AfterHits(s, v, n).1 == 1 <==> !v.isDead && AfterHits(s, v, n).0.isDead
    ensures v.isDead ==> AfterHits(s, v, n).0.isDead
    decreases n
  {
    if v.isDead {
      DeadIgnoresHits(s, v, n);
    } else if n > 0 {
      var first := AfterHit(s, v);
      if first.1 {
        DeadIgnoresHits(s, first.0, n - 1);
      } else {
        KillFiresAtMostOnce(s, first.0, n - 1);
      }
    }
  }

  /** While the damage stays below the health, every hit takes exactly Damage(s)
      and the animal is left alive and fleeing. */
  lemma {:induction false} SurvivingHits(s: Species, v: Vitals, n: nat)
    requires !v.isDead && v.health - n * Damage(s) > 0
    ensures AfterHits(s, v, n) == (Vitals(v.health - n * Damage(s), false, if n == 0 then v.behavior else Flee), 0)
    decreases n
  {
    if n > 0 {
      var first := AfterHit(s, v);
      assert first == (Vitals(v.health - Damage(s), false, Flee), false);
      SurvivingHits(s, first.0, n - 1);
    }
  }

  /** n + 1 hits are n hits followed by one more. */
  lemma {:induction false} AfterHitsSnoc(s: Species, v: Vitals, n: nat)
    ensures var prev := AfterHits(s, v, n);
      var last := AfterHit(s, prev.0);
      AfterHits(s, v, n + 1) == (last.0, prev.1 + (if last.1 then 1 else 0))
    decreases n
  {
    if n > 0 {
      AfterHitsSnoc(s, AfterHit(s, v).0, n - 1);
    }
  }

  /** A full-health bear survives seven hits with 20 health left and dies on the eighth. */
  lemma BearDiesOnEighthHit(b: Behavior)
    ensures AfterHits(Bear, Vitals(BaseHealth(Bear), false, b), 7) == (Vitals(20, false, Flee), 0)
    ensures AfterHits(Bear, Vitals(BaseHealth(Bear), false, b), 8) == (Vitals(-20, true, Flee), 1)
  {
    var full := Vitals(BaseHealth(Bear), false, b);
    SurvivingHits(Bear, full, 7);
    AfterHitsSnoc(Bear, full, 7);
  }

  /** Every other species dies on its first hit from full health. */
  lemma SmallGameDiesOnFirstHit(s: Species, b: Behavior)
    requires s != Bear
    ensures AfterHits(s, Vitals(BaseHealth(s), false, b), 1) == (Vitals(BaseHealth(s) - 100, true, Flee), 1)
  {
  }

  // ----------------------------------------------------------------------
  // One animal

  class AnimalEntity {
    const id: nat
    const species: Species
    /** The health at mount; the animal is wounded while below it. */
    const initialHealth: int
    var behavior: Behavior
    var isDead: bool
    var health: int
    var currentPos: Vec3
    var targetPos: Vec3
    var lastAiUpdate: real
    var lastScentPoint: real
    var lastBloodPoint: real

    constructor (data: Animal)
      ensures id == data.id && species == data.species
      ensures initialHealth == data.health && health == data.health && !isDead
      ensures behavior == data.behavior
      ensures currentPos == data.position && targetPos == data.position
      ensures lastAiUpdate == 0.0 && lastScentPoint == 0.0 && lastBloodPoint == 0.0
    {
      id := data.id;
      species := data.species;
      initialHealth := data.health;
      health := data.health;
      isDead := false;
      behavior := data.behavior;
      currentPos := data.position;
      targetPos := data.position;
      lastAiUpdate := 0.0;
      lastScentPoint := 0.0;
      lastBloodPoint := 0.0;
    }

    predicate Wounded()
      reads this
    {
      health < initialHealth
    }

    /** The re-roll timer. rnd holds the Math.random draws in call order: the call
        sound's roll, the idle roll, the two offset rolls and the group roll; the
        boundary override uses the first two as its offsets. centroids is the
        controller's centroid map, of which the species' entry is the groupCentroid
        prop; invLen is the reciprocal distance from the animal to that entry. */
    method OnTimer(rnd: seq<real>, centroids: map<Species, Vec3>, invLen: real)
      requires |rnd| >= 5 && AllUnit(rnd)
      requires species in centroids ==> InvLength(Sub(centroids[species], currentPos), invLen)
      modifies this`behavior, this`targetPos
      ensures old(isDead) || old(behavior) == Flee ==>
        behavior == old(behavior) && targetPos == old(targetPos)
      ensures !old(isDead) && old(behavior) != Flee && OutOfBounds(currentPos) ==>
        behavior == Wander && targetPos == HomeTarget(rnd[0], rnd[1])
      ensures !old(isDead) && old(behavior) != Flee && !OutOfBounds(currentPos) && rnd[1] > 0.8 ==>
        behavior == Idle && targetPos == old(targetPos)
      ensures !old(isDead) && old(behavior) != Flee && !OutOfBounds(currentPos) && rnd[1] <= 0.8 ==>
        behavior == Wander
        && targetPos == WanderTarget(currentPos, rnd[2], rnd[3], CentroidOf(centroids, species), invLen, rnd[4])
    {
      if isDead || behavior == Flee {
        return;
      }
      if LengthSq(currentPos) > Sq(WorldSize * 0.8) {
        behavior := Wander;
        targetPos := HomeTarget(rnd[0], rnd[1]);
        return;
      }
      // rnd[0] only decides whether the call sound plays.
      if rnd[1] > 0.8 {
        behavior := Idle;
      } else {
        behavior := Wander;
        var offset := Vec3((rnd[2] - 0.5) * 30.0, 0.0, (rnd[3] - 0.5) * 30.0);
        if species in centroids && rnd[4] > 0.4 {
          var toGroup := Scale(Normalize(Sub(centroids[species], currentPos), invLen), 15.0);
          targetPos := Add(Add(currentPos, toGroup), offset);
        } else {
          targetPos := Vec3(currentPos.x + offset.x, 0.0, currentPos.z + offset.z);
        }
      }
    }

    /** The emission phase of a frame: a scent point when moving and 2.5 s have
        passed since the last one, a blood point when also wounded and 1 s has passed. */
    method EmitTrails(now: real, wallNow: int, store: GameStore.Store)
      requires store.Valid()
      modifies this`lastScentPoint, this`lastBloodPoint, store`scentTrails, store`bloodTrails
      ensures store.Valid()
      ensures lastScentPoint == if EmitsScent(behavior, now, old(lastScentPoint)) then now else old(lastScentPoint)
      ensures store.scentTrails ==
        if EmitsScent(behavior, now, old(lastScentPoint))
        then GameStore.LastN(old(store.scentTrails), GameStore.ScentKeep) + [ScentPoint(Ground(currentPos), species, wallNow)]
        else old(store.scentTrails)
      ensures lastBloodPoint ==
        if EmitsBlood(Wounded(), behavior, now, old(lastBloodPoint)) then now else old(lastBloodPoint)
      ensures store.bloodTrails ==
        if EmitsBlood(Wounded(), behavior, now, old(lastBloodPoint))
        then GameStore.LastN(old(store.bloodTrails), GameStore.BloodKeep)
             + [BloodPoint(Vec3(currentPos.x, 0.02, currentPos.z), wallNow)]
        else old(store.bloodTrails)
    {
      if behavior != Idle && now - lastScentPoint > 2.5 {
        lastScentPoint := now;
        store.AddScentPoint(ScentPoint(Vec3(currentPos.x, 0.0, currentPos.z), species, wallNow));
      }
      if health < initialHealth && behavior != Idle && now - lastBloodPoint > 1.0 {
        lastBloodPoint := now;
        store.AddBloodPoint(BloodPoint(Vec3(currentPos.x, 0.02, currentPos.z), wallNow));
      }
    }

    /** The perception phase of a frame, at most once per 0.4 s: a fleeing animal
        keeps fleeing, a detected one turns alert, and inside 18 it flees with its
        target 50 units straight away from the player. invLen is the reciprocal
        distance from the player's ground position to the animal. */
    method Sense(now: real, camera: Vec3, invLen: real, weather: Weather, stamina: real)
      requires InvLength(Sub(currentPos, Ground(camera)), invLen)
      modifies this`lastAiUpdate, this`behavior, this`targetPos
      ensures lastAiUpdate == if PerceptionDue(now, old(lastAiUpdate)) then now else old(lastAiUpdate)
      ensures behavior ==
        if PerceptionDue(now, old(lastAiUpdate))
        then Perceive(old(behavior), DistSq(currentPos, Ground(camera)), weather, stamina)
        else old(behavior)
      ensures targetPos ==
        if old(behavior) != Flee && behavior == Flee
        then Add(currentPos, Scale(Normalize(Sub(currentPos, Ground(camera)), invLen), 50.0))
        else old(targetPos)
    {
      if now - lastAiUpdate > 0.4 {
        lastAiUpdate := now;
        var playerPos := Vec3(camera.x, 0.0, camera.z);
        var dsq := DistSq(currentPos, playerPos);
        var visibilityMod := if weather == Foggy then 0.4 else if weather == Stormy then 0.35 else 1.0;
        var hearingMod := if weather == Stormy then 0.4 else 1.0;
        var hearing := (if stamina < 90.0 then HearingRun else 15.0) * hearingMod;
        if dsq < Sq(SightRange * visibilityMod) || dsq < Sq(ScentRange) || dsq < Sq(hearing) {
          if behavior != Flee {
            behavior := Alert;
            if dsq < Sq(18.0) {
              behavior := Flee;
              targetPos := Add(currentPos, Scale(Normalize(Sub(currentPos, playerPos), invLen), 50.0));
            }
          }
        }
      }
    }

    /** The movement phase of a frame: a moving animal more than 1.5 from its
        target closes in by speed * delta * 8 of the way. rendered is the behaviour
        the frame callback was rendered with: a behaviour set earlier in the same
        frame only takes effect from the next render. */
    method Move(delta: real, rendered: Behavior)
      modifies this`currentPos
      ensures currentPos ==
        if rendered != Idle && DistSq(old(currentPos), targetPos) > Sq(1.5)
        then Lerp(old(currentPos), targetPos, Speed(rendered, Wounded()) * delta * 8.0)
        else old(currentPos)
    {
      var woundedPenalty := if health < initialHealth then 0.55 else 1.0;
      var speed := (if rendered == Flee then 0.22 else if rendered == Wander then 0.045 else 0.0) * woundedPenalty;
      if rendered != Idle && DistSq(currentPos, targetPos) > Sq(1.5) {
        currentPos := Lerp(currentPos, targetPos, speed * delta * 8.0);
      }
    }

    /** One frame: nothing once dead; otherwise emission, perception and movement
        in that order, all three reading the behaviour the frame was rendered with.
        now is the frame clock in seconds, wallNow is Date.now, camera the camera
        position and invLen the reciprocal distance from the player's ground
        position to the animal; stamina and weather are read from the store. */
    method Tick(now: real, delta: real, wallNow: int, camera: Vec3, invLen: real, store: GameStore.Store)
      requires store.Valid()
      requires InvLength(Sub(currentPos, Ground(camera)), invLen)
      modifies this`lastScentPoint, this`lastBloodPoint, this`lastAiUpdate, this`behavior, this`targetPos,
               this`currentPos, store`scentTrails, store`bloodTrails
      ensures store.Valid()
      ensures old(isDead) ==> unchanged(this) && unchanged(store)
      ensures health == old(health) && isDead == old(isDead)
      ensures !old(isDead) ==>
        // emission, decided on the state at the start of the frame
        && (lastScentPoint == if EmitsScent(old(behavior), now, old(lastScentPoint)) then now else old(lastScentPoint))
        && (store.scentTrails ==
              if EmitsScent(old(behavior), now, old(lastScentPoint))
              then GameStore.LastN(old(store.scentTrails), GameStore.ScentKeep)
                   + [ScentPoint(Ground(old(currentPos)), species, wallNow)]
              else old(store.scentTrails))
        && (lastBloodPoint == if EmitsBlood(old(Wounded()), old(behavior), now, old(lastBloodPoint)) then now else old(lastBloodPoint))
        && (store.bloodTrails ==
              if EmitsBlood(old(Wounded()), old(behavior), now, old(lastBloodPoint))
              then GameStore.LastN(old(store.bloodTrails), GameStore.BloodKeep)
                   + [BloodPoint(Vec3(old(currentPos).x, 0.02, old(currentPos).z), wallNow)]
              else old(store.bloodTrails))
        // perception
        && (lastAiUpdate == if PerceptionDue(now, old(lastAiUpdate)) then now else old(lastAiUpdate))
        && (behavior ==
              if PerceptionDue(now, old(lastAiUpdate))
              then Perceive(old(behavior), DistSq(old(currentPos), Ground(camera)), store.weather, store.stamina)
              else old(behavior))
        && (targetPos ==
              if old(behavior) != Flee && behavior == Flee
              then Add(old(currentPos), Scale(Normalize(Sub(old(currentPos), Ground(camera)), invLen), 50.0))
              else old(targetPos))
        // movement, with the rendered behaviour and the target perception left
        && (currentPos ==
              if old(behavior) != Idle && DistSq(old(currentPos), targetPos) > Sq(1.5)
              then Lerp(old(currentPos), targetPos, Speed(old(behavior), old(Wounded())) * delta * 8.0)
              else old(currentPos))
    {
      if isDead {
        return;
      }
      var rendered := behavior;
      EmitTrails(now, wallNow, store);
      Sense(now, camera, invLen, store.weather, store.stamina);
      Move(delta, rendered);
    }

    /** The damage part of the hit handler: health drops by the species' damage,
        the animal flees, and it dies when health reaches 0. */
    method TakeDamage() returns (killed: bool)
      modifies this`health, this`behavior, this`isDead
      ensures (Vitals(health, isDead, behavior), killed) ==
              AfterHit(species, Vitals(old(health), old(isDead), old(behavior)))
    {
      killed := false;
      if isDead {
        return;
      }
      var damage := if species == Bear then 40 else 100;
      var newHealth := health - damage;
      health := newHealth;
      behavior := Flee;
      if newHealth <= 0 {
        isDead := true;
        killed := true;
      }
    }

    /** The hit handler. The flee target is pushed 60 units along the direction
        from the hit point to the animal; invLen is the reciprocal of that distance.
        killed says whether onKilled is called. */
    method HandleHit(hitPoint: Vec3, invLen: real) returns (killed: bool)
      requires InvLength(Sub(currentPos, hitPoint), invLen)
      modifies this`health, this`behavior, this`isDead, this`targetPos
      ensures (Vitals(health, isDead, behavior), killed) ==
              AfterHit(species, Vitals(old(health), old(isDead), old(behavior)))
      ensures old(isDead) ==> targetPos == old(targetPos)
      ensures !old(isDead) ==>
        targetPos == Add(old(targetPos), Scale(Normalize(Sub(currentPos, hitPoint), invLen), 60.0))
    {
      if !isDead {
        targetPos := Add(targetPos, Scale(Normalize(Sub(currentPos, hitPoint), invLen), 60.0));
      }
      killed := TakeDamage();
    }
  }

  // ----------------------------------------------------------------------
  // Population

  /** The Math.random draws for one spawned animal: x, z and heading. */
  datatype SpawnRoll = SpawnRoll(x: real, z: real, turn: real)

  predicate SpawnRollValid(r: SpawnRoll)
  {
    0.0 <= r.x < 1.0 && 0.0 <= r.z < 1.0 && 0.0 <= r.turn < 1.0
  }

  /** A newborn spawn record: full species health, wandering, alive, at a random spot. */
  function NewAnimal(id: nat, s: Species, roll: SpawnRoll): (a: Animal)
    ensures a.id == id && a.species == s && a.health == BaseHealth(s)
    ensures !a.isDead && a.behavior == Wander
  {
    Animal(id, s,
           Vec3((roll.x - 0.5) * WorldSize * 1.5, 0.5, (roll.z - 0.5) * WorldSize * 1.5),
           roll.turn * Pi * 2.0, BaseHealth(s), false, Wander)
  }

  /** Spawn positions lie in the square of half-width 187.5 around the origin. */
  lemma SpawnInSquare(id: nat, s: Species, roll: SpawnRoll)
    requires SpawnRollValid(roll)
    ensures var p := NewAnimal(id, s, roll).position;
      -187.5 <= p.x < 187.5 && p.y == 0.5 && -187.5 <= p.z < 187.5
  {
  }

  /** Position of a species in the table order. */
  function SpeciesIndex(s: Species): (i: nat)
    ensures i < |AllSpecies| && AllSpecies[i] == s
  {
    match s
    case Deer => 0
    case Wolf => 1
    case Bear => 2
    case Rabbit => 3
  }

  function CountOf(animals: seq<Animal>, s: Species): (n: nat)
    ensures n <= |animals|
  {
    if animals == [] then 0 else (if animals[0].species == s then 1 else 0) + CountOf(animals[1..], s)
  }

  lemma {:induction false} CountConcat(a: seq<Animal>, b: seq<Animal>, s: Species)
    ensures CountOf(a + b, s) == CountOf(a, s) + CountOf(b, s)
  {
    if a == [] {
      assert a + b == b;
    } else {
      assert (a + b)[1..] == a[1..] + b;
      CountConcat(a[1..], b, s);
    }
  }

  lemma {:induction false} CountUniform(a: seq<Animal>, sp: Species, s: Species)
    requires forall k :: 0 <= k < |a| ==> a[k].species == sp
    ensures CountOf(a, s) == if sp == s then |a| else 0
  {
    if a != [] {
      CountUniform(a[1..], sp, s);
    }
  }

  predicate DistinctIds(animals: seq<Animal>)
  {
    forall i, j :: 0 <= i < j < |animals| ==> animals[i].id != animals[j].id
  }

  /** prev.filter(a => a.id !== id). */
  function Without(animals: seq<Animal>, id: nat): (r: seq<Animal>)
    ensures |r| <= |animals|
    ensures forall a :: a in r <==> a in animals && a.id != id
  {
    if animals == [] then []
    else if animals[0].id == id then Without(animals[1..], id)
    else [animals[0]] + Without(animals[1..], id)
  }

  lemma {:induction false} WithoutDistinct(animals: seq<Animal>, id: nat)
    requires DistinctIds(animals)
    ensures DistinctIds(Without(animals, id))
  {
    if animals != [] {
      var tail := animals[1..];
      assert DistinctIds(tail) by {
        forall i, j | 0 <= i < j < |tail| ensures tail[i].id != tail[j].id {
          assert tail[i] == animals[i + 1] && tail[j] == animals[j + 1];
        }
      }
      WithoutDistinct(tail, id);
      if animals[0].id != id {
        var w := Without(tail, id);
        forall k | 0 <= k < |w| ensures w[k].id != animals[0].id {
          assert w[k] in tail;
          var m :| 0 <= m < |tail| && tail[m] == w[k];
          assert animals[m + 1] == w[k];
        }
        assert Without(animals, id) == [animals[0]] + w;
      }
    }
  }

  /** Removing the one record with a given id takes exactly one animal of its species away. */
  lemma {:induction false} WithoutRemovesOne(animals: seq<Animal>, k: nat, s: Species)
    requires k < |animals| && DistinctIds(animals)
    ensures |Without(animals, animals[k].id)| == |animals| - 1
    ensures CountOf(Without(animals, animals[k].id), s) + (if animals[k].species == s then 1 else 0)
            == CountOf(animals, s)
  {
    var id := animals[k].id;
    var tail := animals[1..];
    if k == 0 {
      WithoutAbsent(tail, id);
    } else {
      assert DistinctIds(tail) by {
        forall i, j | 0 <= i < j < |tail| ensures tail[i].id != tail[j].id {
          assert tail[i] == animals[i + 1] && tail[j] == animals[j + 1];
        }
      }
      assert tail[k - 1] == animals[k];
      WithoutRemovesOne(tail, k - 1, s);
      assert animals[0].id != id;
      assert Without(animals, id) == [animals[0]] + Without(tail, id);
    }
  }

  lemma {:induction false} WithoutAbsent(animals: seq<Animal>, id: nat)
    requires forall k :: 0 <= k < |animals| ==> animals[k].id != id
    ensures Without(animals, id) == animals
  {
    if animals != [] {
      WithoutAbsent(animals[1..], id);
    }
  }

  /** Sum of the x coordinates of the living records of species s. */
  function SumX(animals: seq<Animal>, s: Species): real
  {
    if animals == [] then 0.0
    else
      var last := animals[|animals| - 1];
      SumX(animals[..|animals| - 1], s) + (if !last.isDead && last.species == s then last.position.x else 0.0)
  }

  /** Sum of the z coordinates of the living records of species s. */
  function SumZ(animals: seq<Animal>, s: Species): real
  {
    if animals == [] then 0.0
    else
      var last := animals[|animals| - 1];
      SumZ(animals[..|animals| - 1], s) + (if !last.isDead && last.species == s then last.position.z else 0.0)
  }

  /** Number of living records of species s. */
  function LiveCount(animals: seq<Animal>, s: Species): nat
  {
    if animals == [] then 0
    else
      var last := animals[|animals| - 1];
      LiveCount(animals[..|animals| - 1], s) + (if !last.isDead && last.species == s then 1 else 0)
  }

  /** With no living record of a species its coordinate sums are zero. */
  lemma {:induction false} NoLiveNoSum(animals: seq<Animal>, s: Species)
    requires LiveCount(animals, s) == 0
    ensures SumX(animals, s) == 0.0 && SumZ(animals, s) == 0.0
  {
    if animals != [] {
      NoLiveNoSum(animals[..|animals| - 1], s);
    }
  }

  /** Extending a prefix by one record adds that record's share to each running total. */
  lemma PrefixStep(animals: seq<Animal>, i: nat, s: Species)
    requires i < |animals|
    ensures var a := animals[i];
      && LiveCount(animals[..i + 1], s) == LiveCount(animals[..i], s) + (if !a.isDead && a.species == s then 1 else 0)
      && SumX(animals[..i + 1], s) == SumX(animals[..i], s) + (if !a.isDead && a.species == s then a.position.x else 0.0)
      && SumZ(animals[..i + 1], s) == SumZ(animals[..i], s) + (if !a.isDead && a.species == s then a.position.z else 0.0)
  {
    assert animals[..i + 1][..i] == animals[..i];
  }

  /** Extending a prefix by one record leaves the totals of every other species as they were. */
  lemma OthersUnchanged(animals: seq<Animal>, i: nat)
    requires i < |animals|
    ensures forall s :: s != animals[i].species ==>
      && LiveCount(animals[..i + 1], s) == LiveCount(animals[..i], s)
      && SumX(animals[..i + 1], s) == SumX(animals[..i], s)
      && SumZ(animals[..i + 1], s) == SumZ(animals[..i], s)
  {
    forall s | s != animals[i].species
      ensures LiveCount(animals[..i + 1], s) == LiveCount(animals[..i], s)
      ensures SumX(animals[..i + 1], s) == SumX(animals[..i], s)
      ensures SumZ(animals[..i + 1], s) == SumZ(animals[..i], s)
    {
      PrefixStep(animals, i, s);
    }
  }

  /** The running per-species coordinate sums and record counts of the centroid pass. */
  datatype Totals = Totals(sums: map<Species, Vec3>, counts: map<Species, nat>)

  /** One step of the pass: a dead record is skipped; a living one opens its
      species' entry at zero if needed and adds its x, z and one to it. */
  function AddRecord(t: Totals, a: Animal): Totals
  {
    if a.isDead then t
    else
      var v := if a.species in t.sums then t.sums[a.species] else Vec3(0.0, 0.0, 0.0);
      var n := if a.species in t.counts then t.counts[a.species] else 0;
      Totals(t.sums[a.species := Vec3(v.x + a.position.x, v.y, v.z + a.position.z)],
             t.counts[a.species := n + 1])
  }

  /** t holds exactly the living species of p with their coordinate sums and counts. */
  ghost predicate Tallied(t: Totals, p: seq<Animal>)
  {
    && (forall s :: s in t.sums <==> LiveCount(p, s) > 0)
    && (forall s :: s in t.counts <==> s in t.sums)
    && (forall s :: s in t.sums ==>
         t.sums[s] == Vec3(SumX(p, s), 0.0, SumZ(p, s)) && t.counts[s] == LiveCount(p, s))
  }

  /** Each step of the pass keeps the totals exact for the longer prefix. */
  lemma AddRecordTallies(t: Totals, animals: seq<Animal>, i: nat)
    requires i < |animals| && Tallied(t, animals[..i])
    ensures Tallied(AddRecord(t, animals[i]), animals[..i + 1])
  {
    var a := animals[i];
    PrefixStep(animals, i, a.species);
    OthersUnchanged(animals, i);
    if !a.isDead && a.species !in t.sums {
      NoLiveNoSum(animals[..i], a.species);
    }
  }

  /** The centroid of each species' living records on the ground plane; species
      with no living record get no entry. */
  method Centroids(animals: seq<Animal>) returns (c: map<Species, Vec3>)
    ensures forall s :: s in c <==> LiveCount(animals, s) > 0
    ensures forall s :: s in c ==>
      c[s] == Vec3(SumX(animals, s) / LiveCount(animals, s) as real, 0.0,
                   SumZ(animals, s) / LiveCount(animals, s) as real)
  {
    var t := Totals(map[], map[]);
    for i := 0 to |animals|
      invariant Tallied(t, animals[..i])
    {
      AddRecordTallies(t, animals, i);
      t := AddRecord(t, animals[i]);
    }
    assert animals[..|animals|] == animals;
    CentroidsOfTallies(t, animals);
    c := map s | s in t.sums :: Vec3(t.sums[s].x / t.counts[s] as real, t.sums[s].y / t.counts[s] as real,
                                     t.sums[s].z / t.counts[s] as real);
  }

  /** Dividing exact totals by their counts gives each living species' centroid. */
  lemma CentroidsOfTallies(t: Totals, animals: seq<Animal>)
    requires Tallied(t, animals)
    ensures var c := map s | s in t.sums :: Vec3(t.sums[s].x / t.counts[s] as real, t.sums[s].y / t.counts[s] as real,
                                                 t.sums[s].z / t.counts[s] as real);
      && (forall s :: s in c <==> LiveCount(animals, s) > 0)
      && (forall s :: s in c ==>
           c[s] == Vec3(SumX(animals, s) / LiveCount(animals, s) as real, 0.0,
                        SumZ(animals, s) / LiveCount(animals, s) as real))
  {
  }

  class Controller {
    var animals: seq<Animal>
    /** Killed records whose 20-second respawn timers are running, oldest first. */
    var pending: seq<Animal>
    /** Stands for uuidv4: every id handed out is new. */
    var nextId: nat
    var centroids: map<Species, Vec3>
    var spawned: bool

    /** Five animals of each species from spawn on, distinct ids, and every running
        respawn timer belongs to a record still in the population. */
    ghost predicate Valid()
      reads this
    {
      && DistinctIds(animals)
      && (forall k :: 0 <= k < |animals| ==> animals[k].id < nextId)
      && (forall s :: CountOf(animals, s) == if spawned then AnimalSpawnLimit / |AllSpecies| else 0)
      && (!spawned ==> animals == [] && pending == [])
      && DistinctIds(pending)
      && (forall p :: p in pending ==> p in animals)
    }

    constructor ()
      ensures Valid() && !spawned && animals == [] && pending == [] && centroids == map[]
    {
      animals := [];
      pending := [];
      nextId := 0;
      centroids := map[];
      spawned := false;
    }

    /** The mount effect: floor(20 / 4) = 5 animals of each species in table order. */
    method Spawn(rolls: seq<SpawnRoll>, store: GameStore.Store)
      requires Valid() && !spawned && |rolls| == AnimalSpawnLimit
      modifies this`animals, this`nextId, this`spawned, store`activeAnimalsCount
      ensures Valid() && spawned
      ensures |animals| == 20 && store.activeAnimalsCount == 20
      ensures forall k :: 0 <= k < |animals| ==>
        animals[k] == NewAnimal(old(nextId) + k, AllSpecies[k / 5], rolls[k])
      ensures forall s :: CountOf(animals, s) == 5
    {
      var newAnimals: seq<Animal> := [];
      var count := AnimalSpawnLimit / |AllSpecies|;
      for t := 0 to |AllSpecies|
        invariant |newAnimals| == count * t
        invariant forall k :: 0 <= k < |newAnimals| ==>
          newAnimals[k] == NewAnimal(nextId + k, AllSpecies[k / 5], rolls[k])
        invariant forall s :: CountOf(newAnimals, s) == if SpeciesIndex(s) < t then count else 0
      {
        for i := 0 to count
          invariant |newAnimals| == count * t + i
          invariant forall k :: 0 <= k < |newAnimals| ==>
            newAnimals[k] == NewAnimal(nextId + k, AllSpecies[k / 5], rolls[k])
          invariant forall s :: CountOf(newAnimals, s) ==
                                (if SpeciesIndex(s) < t then count else if SpeciesIndex(s) == t then i else 0)
        {
          assert (5 * t + i) / 5 == t;
          var a := NewAnimal(nextId + |newAnimals|, AllSpecies[t], rolls[|newAnimals|]);
          forall s ensures CountOf(newAnimals + [a], s) == CountOf(newAnimals, s) + (if s == AllSpecies[t] then 1 else 0) {
            CountConcat(newAnimals, [a], s);
          }
          newAnimals := newAnimals + [a];
        }
      }
      animals := newAnimals;
      nextId := nextId + |newAnimals|;
      spawned := true;
      store.SetAnimalsCount(|newAnimals|);
    }

    /** The centroid pass, run when elapsedTime mod 1.5 is below 0.05. */
    method UpdateCentroids(elapsed: real)
      modifies this`centroids
      ensures JsRem(elapsed, 1.5) < 0.05 ==>
        && (forall s :: s in centroids <==> LiveCount(animals, s) > 0)
        && (forall s :: s in centroids ==>
              centroids[s] == Vec3(SumX(animals, s) / LiveCount(animals, s) as real, 0.0,
                                   SumZ(animals, s) / LiveCount(animals, s) as real))
      ensures JsRem(elapsed, 1.5) >= 0.05 ==> centroids == old(centroids)
    {
      if JsRem(elapsed, 1.5) < 0.05 {
        centroids := Centroids(animals);
      }
    }

    /** onKilled: score and hunt log now, respawn scheduled for 20 seconds later.
        The hit handler's dead latch calls it at most once per animal. */
    method OnKilled(animal: Animal, wallNow: int, store: GameStore.Store)
      requires Valid() && store.Valid()
      requires animal in animals && animal !in pending
      modifies this`pending, store`score, store`huntLog, store`totalHunted
      ensures Valid() && store.Valid()
      ensures store.score == old(store.score) + ScoreValue(animal.species)
      ensures store.huntLog == [HuntRecord(animal.species, wallNow, 0.0, ScoreValue(animal.species))] + old(store.huntLog)
      ensures store.totalHunted == old(store.totalHunted) + 1
      ensures pending == old(pending) + [animal]
    {
      var score := ScoreValue(animal.species);
      store.AddScore(score);
      store.RecordHunt(HuntRecord(animal.species, wallNow, 0.0, score));
      forall i | 0 <= i < |pending| ensures pending[i].id != animal.id {
        assert pending[i] in animals;
        var a :| 0 <= a < |animals| && animals[a] == pending[i];
        var b :| 0 <= b < |animals| && animals[b] == animal;
        assert a != b;
      }
      pending := pending + [animal];
    }

    /** The oldest respawn timer fires: the killed record is swapped for a newborn
        full-health animal of the same species, so every count stays as it was. */
    method FireRespawn(roll: SpawnRoll, store: GameStore.Store)
      requires Valid() && pending != []
      modifies this`animals, this`pending, this`nextId, store`activeAnimalsCount
      ensures Valid()
      ensures animals == Without(old(animals), old(pending)[0].id)
                         + [NewAnimal(old(nextId), old(pending)[0].species, roll)]
      ensures pending == old(pending)[1..]
      ensures |animals| == |old(animals)| && store.activeAnimalsCount == |animals|
      ensures forall s :: CountOf(animals, s) == CountOf(old(animals), s)
    {
      var killed := pending[0];
      var newborn := NewAnimal(nextId, killed.species, roll);
      RespawnCounts(animals, killed, newborn);
      RespawnIds(animals, pending, nextId, newborn);
      animals := Without(animals, killed.id) + [newborn];
      pending := pending[1..];
      nextId := nextId + 1;
      store.SetAnimalsCount(|animals|);
    }
  }


  /** Swapping the killed record for a newborn of its species keeps every count. */
  lemma RespawnCounts(animals: seq<Animal>, killed: Animal, newborn: Animal)
    requires DistinctIds(animals) && killed in animals && newborn.species == killed.species
    ensures |Without(animals, killed.id) + [newborn]| == |animals|
    ensures forall s :: CountOf(Without(animals, killed.id) + [newborn], s) == CountOf(animals, s)
  {
    var k :| 0 <= k < |animals| && animals[k] == killed;
    var next := Without(animals, killed.id);
    forall s ensures CountOf(next + [newborn], s) == CountOf(animals, s) {
      WithoutRemovesOne(animals, k, s);
      CountConcat(next, [newborn], s);
    }
    WithoutRemovesOne(animals, k, Deer);
  }

  /** After the swap ids stay distinct and below the next id, and the later timers
      still belong to records of the population. */
  lemma RespawnIds(animals: seq<Animal>, pending: seq<Animal>, nextId: nat, newborn: Animal)
    requires DistinctIds(animals) && (forall k :: 0 <= k < |animals| ==> animals[k].id < nextId)
    requires pending != [] && DistinctIds(pending) && (forall p :: p in pending ==> p in animals)
    requires newborn.id == nextId
    ensures var next := Without(animals, pending[0].id) + [newborn];
      && DistinctIds(next)
      && (forall k :: 0 <= k < |next| ==> next[k].id < nextId + 1)
      && DistinctIds(pending[1..])
      && (forall p :: p in pending[1..] ==> p in next)
  {
    var w := Without(animals, pending[0].id);
    var next := w + [newborn];
    WithoutDistinct(animals, pending[0].id);
    forall k | 0 <= k < |w| ensures w[k].id < nextId {
      assert w[k] in animals;
    }
    forall i, j | 0 <= i < j < |next| ensures next[i].id != next[j].id {
      if j == |w| {
        assert next[i] == w[i];
      } else {
        assert next[i] == w[i] && next[j] == w[j];
      }
    }
    var rest := pending[1..];
    forall p | p in rest ensures p in next {
      var i :| 0 <= i < |rest| && rest[i] == p;
      assert pending[i + 1] == p;
      assert p.id != pending[0].id;
      assert p in w;
    }
    forall i, j | 0 <= i < j < |rest| ensures rest[i].id != rest[j].id {
      assert rest[i] == pending[i + 1] && rest[j] == pending[j + 1];
    }
  }
}
