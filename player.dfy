// The player's fire and movement logic (components/Player.tsx): the fire gate
// and its inaccuracy, the choice of the struck animal among the raycast hits,
// the trigger counters, the jump and the airborne step, the speed multipliers
// and the pitch clamp. The raycaster is replaced by its result, a list of
// intersections ordered by distance; Date.now and the frame delta are parameters.

module Player {
  import opened Types
  import opened Constants
  import GameStore

  /** Milliseconds that must pass between two shots. */
  const ShotCooldown: int := 350
  const JumpVelocity: real := 10.0
  const Gravity: real := 25.0

  // ----------------------------------------------------------------------
  // Inaccuracy

  function WeatherInaccuracy(w: Weather): real
  {
    if w == Stormy then 0.012 else if w == Rainy then 0.006 else 0.0
  }

  /** Prone steadies the shot most, then crouching; prone wins if both flags are on. */
  function PostureStability(isProne: bool, isCrouching: bool): real
  {
    if isProne then 0.2 else if isCrouching then 0.4 else 1.0
  }

  /** The spread added to the ray direction before it is cast. */
  function Inaccuracy(stamina: real, isAiming: bool, w: Weather, isProne: bool, isCrouching: bool): real
  {
    ((100.0 - stamina) * 0.0005 + (if isAiming then 0.002 else 0.02) + WeatherInaccuracy(w))
      * PostureStability(isProne, isCrouching) * (if isAiming then 0.35 else 1.0)
  }

  /** The spread is never negative while stamina is at most 100. */
  lemma InaccuracyNonNegative(stamina: real, isAiming: bool, w: Weather, isProne: bool, isCrouching: bool)
    requires stamina <= 100.0
    ensures Inaccuracy(stamina, isAiming, w, isProne, isCrouching) >= 0.0
  {
    var base := (100.0 - stamina) * 0.0005 + (if isAiming then 0.002 else 0.02) + WeatherInaccuracy(w);
    assert base > 0.0;
    var factor := PostureStability(isProne, isCrouching) * (if isAiming then 0.35 else 1.0);
    assert factor > 0.0;
    assert Inaccuracy(stamina, isAiming, w, isProne, isCrouching) == base * factor;
  }

  /** Other inputs fixed, prone spreads no more than crouching, crouching no more than standing. */
  lemma PostureOrdersInaccuracy(stamina: real, isAiming: bool, w: Weather)
    requires stamina <= 100.0
    ensures Inaccuracy(stamina, isAiming, w, true, false) <= Inaccuracy(stamina, isAiming, w, false, true)
    ensures Inaccuracy(stamina, isAiming, w, false, true) <= Inaccuracy(stamina, isAiming, w, false, false)
  {
    var base := (100.0 - stamina) * 0.0005 + (if isAiming then 0.002 else 0.02) + WeatherInaccuracy(w);
    var aim := if isAiming then 0.35 else 1.0;
    assert base > 0.0 && aim > 0.0;
    assert Inaccuracy(stamina, isAiming, w, true, false) == base * aim * 0.2;
    assert Inaccuracy(stamina, isAiming, w, false, true) == base * aim * 0.4;
    assert Inaccuracy(stamina, isAiming, w, false, false) == base * aim * 1.0;
    MulLeq(base * aim, 0.2, 0.4);
    MulLeq(base * aim, 0.4, 1.0);
  }

  /** Aiming always spreads strictly less than firing from the hip. */
  lemma AimingNarrowsInaccuracy(stamina: real, w: Weather, isProne: bool, isCrouching: bool)
    requires stamina <= 100.0
    ensures Inaccuracy(stamina, true, w, isProne, isCrouching) < Inaccuracy(stamina, false, w, isProne, isCrouching)
  {
    var rest := (100.0 - stamina) * 0.0005 + WeatherInaccuracy(w);
    var p := PostureStability(isProne, isCrouching);
    assert rest >= 0.0 && p > 0.0;
    assert Inaccuracy(stamina, true, w, isProne, isCrouching) == (rest + 0.002) * 0.35 * p;
    assert Inaccuracy(stamina, false, w, isProne, isCrouching) == (rest + 0.02) * 1.0 * p;
    assert (rest + 0.002) * 0.35 < (rest + 0.02) * 1.0;
    MulLess((rest + 0.002) * 0.35, (rest + 0.02) * 1.0, p);
  }

  lemma MulLeq(k: real, a: real, b: real)
    requires k >= 0.0 && a <= b
    ensures k * a <= k * b
  {
  }

  lemma MulLess(a: real, b: real, k: real)
    requires a < b && k > 0.0
    ensures a * k < b * k
  {
  }

  // ----------------------------------------------------------------------
  // Choosing the struck animal

  /** The userData of a scene object: the animal groups carry the isAnimal tag and
      their hit handler, which stands here for the animal's id; everything else is plain. */
  datatype UserData = Plain | AnimalTag(animalId: nat)

  /** One raycast intersection: the hit point, the userData of the intersected
      object, and the userData of its ancestors from the parent upwards. */
  datatype Intersection = Intersection(point: Vec3, target: UserData, ancestors: seq<UserData>)

  /** The animal whose handler is called, with the point passed to it. */
  datatype Strike = Strike(animalId: nat, point: Vec3)

  /** The tag the shot code reads: the one on the intersected object itself. */
  function OwnTag(h: Intersection): UserData
  {
    h.target
  }

  /** The nearest tag on the intersected object or one of its ancestors. */
  function OwnerTag(h: Intersection): (u: UserData)
    ensures u.AnimalTag? <==> h.target.AnimalTag? || exists k :: 0 <= k < |h.ancestors| && h.ancestors[k].AnimalTag?
  {
    if h.target.AnimalTag? then h.target else NearestTag(h.ancestors)
  }

  function NearestTag(path: seq<UserData>): (u: UserData)
    ensures u.AnimalTag? <==> exists k :: 0 <= k < |path| && path[k].AnimalTag?
    ensures u.AnimalTag? ==> u in path
  {
    if path == [] then Plain
    else if path[0].AnimalTag? then path[0]
    else
      var u := NearestTag(path[1..]);
      assert forall k :: 1 <= k < |path| ==> path[k] == path[1..][k - 1];
      u
  }

  /** intersects.find(i => i.object.userData?.isAnimal), as the shot code writes it. */
  function FindTargetAsWritten(hits: seq<Intersection>): (r: Option<Strike>)
    ensures r.Some? <==> exists i :: 0 <= i < |hits| && OwnTag(hits[i]).AnimalTag?
  {
    if hits == [] then None
    else if OwnTag(hits[0]).AnimalTag? then Some(Strike(OwnTag(hits[0]).animalId, hits[0].point))
    else
      var r := FindTargetAsWritten(hits[1..]);
      assert forall i :: 1 <= i < |hits| ==> hits[i] == hits[1..][i - 1];
      r
  }

  /** The nearest intersection that belongs to a tagged animal group. */
  function FindTarget(hits: seq<Intersection>): (r: Option<Strike>)
    ensures r.None? <==> forall i :: 0 <= i < |hits| ==> OwnerTag(hits[i]).Plain?
    ensures r.Some? ==>
      exists i :: (0 <= i < |hits|
        && OwnerTag(hits[i]) == AnimalTag(r.value.animalId) && hits[i].point == r.value.point
        && forall j :: 0 <= j < i ==> OwnerTag(hits[j]).Plain?)
  {
    if hits == [] then None
    else if OwnerTag(hits[0]).AnimalTag? then Some(Strike(OwnerTag(hits[0]).animalId, hits[0].point))
    else
      var r := FindTarget(hits[1..]);
      assert forall i :: 1 <= i < |hits| ==> hits[i] == hits[1..][i - 1];
      if r.Some? then
        var i :| 0 <= i < |hits[1..]|
          && OwnerTag(hits[1..][i]) == AnimalTag(r.value.animalId) && hits[1..][i].point == r.value.point
          && forall j :: 0 <= j < i ==> OwnerTag(hits[1..][j]).Plain?;
        assert OwnerTag(hits[i + 1]) == AnimalTag(r.value.animalId);
        assert forall j :: 0 <= j < i + 1 ==> OwnerTag(hits[j]).Plain?;
        r
      else r
  }

  /** Meshes are the only objects a raycast intersects, and the tag sits on the
      animal's group, never on a mesh: every intersected object is untagged. */
  predicate MeshesUntagged(hits: seq<Intersection>)
  {
    forall i :: 0 <= i < |hits| ==> hits[i].target == Plain
  }

  /** As written, no shot ever reaches an animal's hit handler. */
  lemma AsWrittenNeverStrikes(hits: seq<Intersection>)
    requires MeshesUntagged(hits)
    ensures FindTargetAsWritten(hits) == None
  {
  }

  /** A shot into the body mesh of animal 7: the mesh is untagged, its parent group
      is tagged. The shot code finds nothing; the nearest tagged ancestor is animal 7. */
  lemma BodyShotExample()
    ensures var hits := [Intersection(Vec3(1.0, 0.5, -4.0), Plain, [Plain, AnimalTag(7), Plain])];
      && MeshesUntagged(hits)
      && FindTargetAsWritten(hits) == None
      && FindTarget(hits) == Some(Strike(7, Vec3(1.0, 0.5, -4.0)))
  {
    var h := Intersection(Vec3(1.0, 0.5, -4.0), Plain, [Plain, AnimalTag(7), Plain]);
    assert NearestTag(h.ancestors[1..]) == AnimalTag(7);
    assert OwnerTag(h) == AnimalTag(7);
  }

  /** Where the tag does sit on the intersected object both readings agree. */
  lemma {:induction false} TaggedTargetsAgree(hits: seq<Intersection>)
    requires forall i :: 0 <= i < |hits| ==> hits[i].target.AnimalTag? || OwnerTag(hits[i]).Plain?
    ensures FindTarget(hits) == FindTargetAsWritten(hits)
  {
    if hits != [] {
      assert forall i :: 0 <= i < |hits[1..]| ==> hits[1..][i] == hits[i + 1];
      TaggedTargetsAgree(hits[1..]);
    }
  }

  // ----------------------------------------------------------------------
  // Movement

  /** PLAYER_SPEED scaled by 0.4 when aiming, 0.5 when crouching, 0.2 when prone. */
  function MoveSpeed(isAiming: bool, isCrouching: bool, isProne: bool): real
  {
    PlayerSpeed * (if isAiming then 0.4 else 1.0) * (if isCrouching then 0.5 else 1.0)
      * (if isProne then 0.2 else 1.0)
  }

  /** Each modifier only slows the player: the speed stays in (0, 0.12], and aiming
      or a lower posture never speeds it up. */
  lemma MoveSpeedBounds(isAiming: bool, isCrouching: bool, isProne: bool)
    ensures 0.0 < MoveSpeed(isAiming, isCrouching, isProne) <= PlayerSpeed
    ensures MoveSpeed(true, isCrouching, isProne) < MoveSpeed(false, isCrouching, isProne)
    ensures MoveSpeed(isAiming, false, false) == PlayerSpeed * (if isAiming then 0.4 else 1.0)
    ensures MoveSpeed(isAiming, false, true) < MoveSpeed(isAiming, true, false)
    ensures MoveSpeed(isAiming, true, false) < MoveSpeed(isAiming, false, false)
  {
  }

  const PitchMin: real := -Pi / 2.5
  const PitchMax: real := Pi / 4.0

  /** Math.max(-PI/2.5, Math.min(PI/4, x)). */
  function ClampPitch(x: real): (r: real)
    ensures PitchMin <= r <= PitchMax
    ensures PitchMin <= x <= PitchMax ==> r == x
    ensures x < PitchMin ==> r == PitchMin
    ensures x > PitchMax ==> r == PitchMax
  {
    Max(PitchMin, Min(PitchMax, x))
  }

  /** The mouse-look damping: 0.35 only when assist is on, an animal is near and the player aims. */
  function AssistFactor(isAimAssistEnabled: bool, isNearAnimal: bool, isAiming: bool): real
  {
    if isAimAssistEnabled && isNearAnimal && isAiming then 0.35 else 1.0
  }

  /** A frame starts a jump on the jump key or an unseen jump trigger, from the ground, never prone. */
  predicate JumpStarts(jumpKey: bool, jumpTriggered: nat, lastJumpCount: nat, isGrounded: bool, isProne: bool)
  {
    (jumpKey || jumpTriggered > lastJumpCount) && isGrounded && !isProne
  }

  /** A frame fires when an unseen shoot trigger meets the fire gate: ammo left and the cooldown over. */
  predicate ShotFires(shootTriggered: nat, lastShootCount: nat, ammo: int, now: int, lastShot: int)
  {
    shootTriggered > lastShootCount && ammo > 0 && now - lastShot >= ShotCooldown
  }

  // ----------------------------------------------------------------------
  // The player

  class Player {
    /** Date.now of the last shot that passed the gate. */
    var lastShot: int
    var verticalVelocity: real
    var isGrounded: bool
    var lastJumpCount: nat
    var lastShootCount: nat
    /** Height of the player group above the ground. */
    var y: real
    /** Camera pitch and yaw (the x and y of the camera rotation). */
    var pitch: real
    var yaw: real
    var isDragging: bool
    var lastMouseX: real
    var lastMouseY: real
    /** Initialised false and never written by the component. */
    var isNearAnimal: bool

    /** Never below the ground, and at rest on it whenever grounded. */
    ghost predicate Valid()
      reads this
    {
      && y >= 0.0
      && (isGrounded ==> y == 0.0 && verticalVelocity == 0.0)
      && PitchMin <= pitch <= PitchMax
    }

    /** Mounting: on the ground, counters synchronised with the store's. */
    constructor (store: GameStore.Store)
      ensures Valid()
      ensures lastShot == 0 && verticalVelocity == 0.0 && isGrounded && y == 0.0
      ensures lastJumpCount == store.jumpTriggered && lastShootCount == store.shootTriggered
      ensures pitch == -0.2 && yaw == 0.0 && !isDragging && !isNearAnimal
    {
      lastShot := 0;
      verticalVelocity := 0.0;
      isGrounded := true;
      lastJumpCount := store.jumpTriggered;
      lastShootCount := store.shootTriggered;
      y := 0.0;
      pitch := -0.2;
      yaw := 0.0;
      isDragging := false;
      lastMouseX := 0.0;
      lastMouseY := 0.0;
      isNearAnimal := false;
    }

    /** The fire gate: nothing at all without ammo or within 350 ms of the last
        shot; otherwise one round, the cooldown restarts, and the nearest animal
        among the hits is struck. spread is the inaccuracy applied to the ray;
        struck is the corrected lookup and struckAsWritten the lookup line 68 makes. */
    method Shoot(now: int, store: GameStore.Store, hits: seq<Intersection>)
      returns (spread: real, struck: Option<Strike>, struckAsWritten: Option<Strike>)
      requires store.Valid()
      modifies this`lastShot, store`ammo
      ensures store.Valid()
      ensures old(store.ammo) <= 0 || now - old(lastShot) < ShotCooldown ==>
        && store.ammo == old(store.ammo) && lastShot == old(lastShot)
        && struck == None && struckAsWritten == None
      ensures old(store.ammo) > 0 && now - old(lastShot) >= ShotCooldown ==>
        && store.ammo == old(store.ammo) - 1
        && lastShot == now
        && spread == Inaccuracy(store.stamina, store.isAiming, store.weather, store.isProne, store.isCrouching)
        && struck == FindTarget(hits)
        && struckAsWritten == FindTargetAsWritten(hits)
    {
      spread := 0.0;
      struck := None;
      struckAsWritten := None;
      if store.ammo <= 0 || now - lastShot < 350 {
        return;
      }
      store.UseAmmo();
      lastShot := now;
      var weatherInaccuracy := if store.weather == Stormy then 0.012 else if store.weather == Rainy then 0.006 else 0.0;
      var postureStability := if store.isProne then 0.2 else if store.isCrouching then 0.4 else 1.0;
      var staminaEffect := (100.0 - store.stamina) * 0.0005;
      var aimDamping := if store.isAiming then 0.35 else 1.0;
      spread := (staminaEffect + (if store.isAiming then 0.002 else 0.02) + weatherInaccuracy) * postureStability * aimDamping;
      struck := FindTarget(hits);
      struckAsWritten := FindTargetAsWritten(hits);
    }

    /** The jump check of a frame: the jump key or an unseen jump trigger starts
        a jump only from the ground and never when prone. */
    method TryJump(jumpKey: bool, store: GameStore.Store)
      requires Valid()
      modifies this`verticalVelocity, this`isGrounded, this`lastJumpCount
      ensures Valid()
      ensures JumpStarts(jumpKey, store.jumpTriggered, old(lastJumpCount), old(isGrounded), store.isProne) ==>
        verticalVelocity == JumpVelocity && !isGrounded && lastJumpCount == store.jumpTriggered
      ensures !JumpStarts(jumpKey, store.jumpTriggered, old(lastJumpCount), old(isGrounded), store.isProne) ==>
        verticalVelocity == old(verticalVelocity) && isGrounded == old(isGrounded)
        && lastJumpCount == old(lastJumpCount)
    {
      if (jumpKey || store.jumpTriggered > lastJumpCount) && isGrounded && !store.isProne {
        verticalVelocity := 10.0;
        isGrounded := false;
        lastJumpCount := store.jumpTriggered;
      }
    }

    /** The shoot trigger of a frame: any number of unseen presses make one shot
        attempt, and all of them are consumed. */
    method ConsumeShootTrigger(now: int, store: GameStore.Store, hits: seq<Intersection>)
      returns (struck: Option<Strike>, struckAsWritten: Option<Strike>)
      requires store.Valid()
      modifies this`lastShot, this`lastShootCount, store`ammo
      ensures store.Valid()
      ensures lastShootCount ==
        if store.shootTriggered > old(lastShootCount) then store.shootTriggered else old(lastShootCount)
      ensures var fires := ShotFires(store.shootTriggered, old(lastShootCount), old(store.ammo), now, old(lastShot));
        && store.ammo == (if fires then old(store.ammo) - 1 else old(store.ammo))
        && lastShot == (if fires then now else old(lastShot))
        && struck == (if fires then FindTarget(hits) else None)
        && struckAsWritten == (if fires then FindTargetAsWritten(hits) else None)
    {
      struck, struckAsWritten := None, None;
      if store.shootTriggered > lastShootCount {
        var _, s, w := Shoot(now, store, hits);
        struck, struckAsWritten := s, w;
        lastShootCount := store.shootTriggered;
      }
    }

    /** The airborne step: gravity, then the height; landing snaps to the ground. */
    method AirStep(delta: real)
      requires Valid()
      modifies this`verticalVelocity, this`y, this`isGrounded
      ensures Valid()
      ensures old(isGrounded) ==> verticalVelocity == old(verticalVelocity) && y == old(y) && isGrounded
      ensures !old(isGrounded) ==>
        var v := old(verticalVelocity) - Gravity * delta;
        var h := old(y) + v * delta;
        if h <= 0.0 then y == 0.0 && verticalVelocity == 0.0 && isGrounded
        else y == h && verticalVelocity == v && !isGrounded
    {
      if !isGrounded {
        verticalVelocity := verticalVelocity - 25.0 * delta;
        y := y + verticalVelocity * delta;
        if y <= 0.0 {
          y := 0.0;
          verticalVelocity := 0.0;
          isGrounded := true;
        }
      }
    }

    /** The physics part of one frame, in the component's order: jump, shot
        trigger, airborne step. */
    method Frame(jumpKey: bool, delta: real, now: int, store: GameStore.Store, hits: seq<Intersection>)
      returns (struck: Option<Strike>, struckAsWritten: Option<Strike>)
      requires Valid() && store.Valid()
      modifies this`verticalVelocity, this`isGrounded, this`lastJumpCount, this`y,
               this`lastShot, this`lastShootCount, store`ammo
      ensures Valid() && store.Valid()
      // the jump, then the airborne step from the velocity the jump left
      ensures var jumped := JumpStarts(jumpKey, store.jumpTriggered, old(lastJumpCount), old(isGrounded), store.isProne);
        var v0 := if jumped then JumpVelocity else old(verticalVelocity);
        var v := v0 - Gravity * delta;
        var h := old(y) + v * delta;
        && lastJumpCount == (if jumped then store.jumpTriggered else old(lastJumpCount))
        && (!jumped && old(isGrounded) ==> verticalVelocity == old(verticalVelocity) && y == old(y) && isGrounded)
        && (jumped || !old(isGrounded) ==>
              if h <= 0.0 then y == 0.0 && verticalVelocity == 0.0 && isGrounded
              else y == h && verticalVelocity == v && !isGrounded)
      // the shot trigger, through the fire gate
      ensures lastShootCount ==
        if store.shootTriggered > old(lastShootCount) then store.shootTriggered else old(lastShootCount)
      ensures var fires := ShotFires(store.shootTriggered, old(lastShootCount), old(store.ammo), now, old(lastShot));
        && store.ammo == (if fires then old(store.ammo) - 1 else old(store.ammo))
        && lastShot == (if fires then now else old(lastShot))
        && struck == (if fires then FindTarget(hits) else None)
        && struckAsWritten == (if fires then FindTargetAsWritten(hits) else None)
    {
      TryJump(jumpKey, store);
      struck, struckAsWritten := ConsumeShootTrigger(now, store, hits);
      AirStep(delta);
    }

    /** Mouse down outside buttons and the joystick: the right button or the
        right 60% of the screen starts a drag; the right button also aims. */
    method MouseDown(button: int, clientX: real, clientY: real, width: real,
                     onControl: bool, store: GameStore.Store)
      modifies this`isDragging, this`lastMouseX, this`lastMouseY, store`isAiming
      ensures onControl ==> isDragging == old(isDragging) && store.isAiming == old(store.isAiming)
      ensures !onControl && (button == 2 || clientX >= width * 0.4) ==>
        isDragging && lastMouseX == clientX && lastMouseY == clientY
      ensures !onControl && !(button == 2 || clientX >= width * 0.4) ==>
        isDragging == old(isDragging) && lastMouseX == old(lastMouseX) && lastMouseY == old(lastMouseY)
      ensures !onControl && button == 2 ==> store.isAiming
      ensures !onControl && button != 2 ==> store.isAiming == old(store.isAiming)
      ensures onControl ==> lastMouseX == old(lastMouseX) && lastMouseY == old(lastMouseY)
    {
      if onControl {
        return;
      }
      if button == 2 || clientX >= width * 0.4 {
        isDragging := true;
        lastMouseX := clientX;
        lastMouseY := clientY;
      }
      if button == 2 {
        store.SetAiming(true);
      }
    }

    /** A drag turns the camera, damped by aim assist, and the pitch is clamped. */
    method MouseMove(clientX: real, clientY: real, store: GameStore.Store)
      requires Valid()
      modifies this`yaw, this`pitch, this`lastMouseX, this`lastMouseY
      ensures Valid()
      ensures !isDragging ==>
        yaw == old(yaw) && pitch == old(pitch) && lastMouseX == old(lastMouseX) && lastMouseY == old(lastMouseY)
      ensures isDragging ==>
        var f := AssistFactor(store.isAimAssistEnabled, isNearAnimal, store.isAiming);
        && yaw == old(yaw) - (clientX - old(lastMouseX)) * Sensitivity * f
        && pitch == ClampPitch(old(pitch) - (clientY - old(lastMouseY)) * Sensitivity * f)
        && lastMouseX == clientX && lastMouseY == clientY
    {
      if isDragging {
        var dx := clientX - lastMouseX;
        var dy := clientY - lastMouseY;
        var assistFactor := if store.isAimAssistEnabled && isNearAnimal && store.isAiming then 0.35 else 1.0;
        yaw := yaw - dx * 0.005 * assistFactor;
        pitch := pitch - dy * 0.005 * assistFactor;
        pitch := ClampPitch(pitch);
        lastMouseX := clientX;
        lastMouseY := clientY;
      }
    }

    method MouseUp(button: int, store: GameStore.Store)
      modifies this`isDragging, store`isAiming
      ensures !isDragging
      ensures button == 2 ==> !store.isAiming
      ensures button != 2 ==> store.isAiming == old(store.isAiming)
    {
      isDragging := false;
      if button == 2 {
        store.SetAiming(false);
      }
    }

    /** r reloads, c toggles crouching, z toggles prone, in either case of letter. */
    method KeyDown(key: string, store: GameStore.Store)
      requires store.Valid()
      modifies store`ammo, store`isCrouching, store`isProne
      ensures store.Valid()
      ensures LowerAscii(key) == "r" ==> store.ammo == GameStore.InitialAmmo
      ensures LowerAscii(key) != "r" ==> store.ammo == old(store.ammo)
      ensures LowerAscii(key) == "c" ==> store.isCrouching == !old(store.isCrouching) && !store.isProne
      ensures LowerAscii(key) == "z" ==> store.isProne == !old(store.isProne) && !store.isCrouching
      ensures LowerAscii(key) !in {"c", "z"} ==>
        store.isCrouching == old(store.isCrouching) && store.isProne == old(store.isProne)
    {
      var k := LowerAscii(key);
      if k == "r" {
        store.ReloadAmmo();
      }
      if k == "c" {
        store.SetPosture(if store.isCrouching then GameStore.Standing else GameStore.Crouching);
      }
      if k == "z" {
        store.SetPosture(if store.isProne then GameStore.Standing else GameStore.Prone);
      }
    }
  }

}
