// The single game-state store (store/useGameStore.ts): one mutable record whose
// actions each overwrite a few fields. Wall-clock time (Date.now) is a parameter.

module GameStore {
  import opened Types

  const InitialAmmo: int := 10
  /** addScentPoint keeps this many old points before appending the new one. */
  const ScentKeep: nat := 1000
  /** addBloodPoint keeps this many old points before appending the new one. */
  const BloodKeep: nat := 500
  /** Scent points at least this old (ms) are swept by cleanOldTrails. */
  const ScentMaxAge: int := 30000
  /** Blood points at least this old (ms) are swept by cleanOldTrails. */
  const BloodMaxAge: int := 60000

  datatype Posture = Standing | Crouching | Prone

  /** Array.prototype.slice(-n) for n > 0: the last min(n, |s|) elements of s. */
  function LastN<T>(s: seq<T>, n: nat): (r: seq<T>)
    ensures |r| <= n && |r| <= |s|
    ensures |r| == n || r == s
    ensures forall k :: 0 <= k < |r| ==> r[k] == s[|s| - |r| + k]
  {
    if |s| <= n then s else s[|s| - n..]
  }

  /** Array.prototype.filter: the elements of s satisfying p, in their order. */
  function Filter<T(!new)>(s: seq<T>, p: T -> bool): (r: seq<T>)
    ensures |r| <= |s|
    ensures forall x :: x in r <==> x in s && p(x)
  {
    if s == [] then [] else if p(s[0]) then [s[0]] + Filter(s[1..], p) else Filter(s[1..], p)
  }

  /** Filtering distributes over concatenation, so the kept elements keep their relative order. */
  lemma {:induction false} FilterConcat<T(!new)>(a: seq<T>, b: seq<T>, p: T -> bool)
    ensures Filter(a + b, p) == Filter(a, p) + Filter(b, p)
  {
    if a != [] {
      assert (a + b)[1..] == a[1..] + b;
      FilterConcat(a[1..], b, p);
    } else {
      assert a + b == b;
    }
  }

  /** A second filter with the same predicate removes nothing more. */
  lemma {:induction false} FilterIdempotent<T(!new)>(s: seq<T>, p: T -> bool)
    ensures Filter(Filter(s, p), p) == Filter(s, p)
  {
    if s != [] {
      FilterIdempotent(s[1..], p);
    }
  }

  /** A sequence whose elements all satisfy p passes through the filter unchanged. */
  lemma {:induction false} FilterKeepsAll<T(!new)>(s: seq<T>, p: T -> bool)
    requires forall k :: 0 <= k < |s| ==> p(s[k])
    ensures Filter(s, p) == s
  {
    if s != [] {
      FilterKeepsAll(s[1..], p);
    }
  }

  predicate ScentFresh(p: ScentPoint, now: int) { now - p.timestamp < ScentMaxAge }

  predicate BloodFresh(p: BloodPoint, now: int) { now - p.timestamp < BloodMaxAge }

  /** The scent points cleanOldTrails keeps at wall-clock time now. */
  function FreshScent(s: seq<ScentPoint>, now: int): (r: seq<ScentPoint>)
    ensures forall q :: q in r <==> q in s && now - q.timestamp < ScentMaxAge
  {
    Filter(s, q => ScentFresh(q, now))
  }

  /** The blood points cleanOldTrails keeps at wall-clock time now. */
  function FreshBlood(s: seq<BloodPoint>, now: int): (r: seq<BloodPoint>)
    ensures forall q :: q in r <==> q in s && now - q.timestamp < BloodMaxAge
  {
    Filter(s, q => BloodFresh(q, now))
  }

  /** Sweeping twice at the same instant leaves what one sweep left. */
  lemma CleanIdempotent(scent: seq<ScentPoint>, blood: seq<BloodPoint>, now: int)
    ensures FreshScent(FreshScent(scent, now), now) == FreshScent(scent, now)
    ensures FreshBlood(FreshBlood(blood, now), now) == FreshBlood(blood, now)
  {
    FilterIdempotent(scent, q => ScentFresh(q, now));
    FilterIdempotent(blood, q => BloodFresh(q, now));
  }

  /** A sweep keeps the order of survivors: sweeping a concatenation sweeps each part. */
  lemma CleanKeepsOrder(a: seq<ScentPoint>, b: seq<ScentPoint>, now: int)
    ensures FreshScent(a + b, now) == FreshScent(a, now) + FreshScent(b, now)
  {
    FilterConcat(a, b, q => ScentFresh(q, now));
  }

  /** Math.max(0, Math.min(100, x)). */
  function ClampStamina(x: real): (r: real)
    ensures 0.0 <= r <= 100.0
    ensures 0.0 <= x <= 100.0 ==> r == x
    ensures x < 0.0 ==> r == 0.0
    ensures x > 100.0 ==> r == 100.0
  {
    if x > 100.0 then 100.0 else if x < 0.0 then 0.0 else x
  }

  /** Math.max(0, ammo - 1): one round fewer, never below zero. */
  function AmmoAfterShot(ammo: int): (r: int)
    ensures r >= 0
    ensures ammo > 0 ==> r == ammo - 1
    ensures ammo <= 0 ==> r == 0
  {
    if ammo - 1 > 0 then ammo - 1 else 0
  }

  class Store {
    var gameState: GameState
    var score: int
    var ammo: int
    var stamina: real
    var weather: Weather
    var totalHunted: int
    var huntLog: seq<HuntRecord>
    var activeAnimalsCount: int
    var isTrackerVision: bool
    var isAimAssistEnabled: bool
    var scentTrails: seq<ScentPoint>
    var bloodTrails: seq<BloodPoint>
    var isCrouching: bool
    var isProne: bool
    var isAiming: bool
    var jumpTriggered: nat
    var shootTriggered: nat

    /** What every action preserves from the initial state on. */
    ghost predicate Valid()
      reads this
    {
      && 0 <= ammo <= InitialAmmo
      && 0.0 <= stamina <= 100.0
      && totalHunted == |huntLog|
      && !(isCrouching && isProne)
      && |scentTrails| <= ScentKeep + 1
      && |bloodTrails| <= BloodKeep + 1
    }

    constructor ()
      ensures Valid()
      ensures gameState == Menu && score == 0 && ammo == 10 && stamina == 100.0
      ensures weather == Clear && totalHunted == 0 && huntLog == [] && activeAnimalsCount == 0
      ensures !isTrackerVision && isAimAssistEnabled && scentTrails == [] && bloodTrails == []
      ensures !isCrouching && !isProne && !isAiming && jumpTriggered == 0 && shootTriggered == 0
    {
      gameState := Menu;
      score := 0;
      ammo := 10;
      stamina := 100.0;
      weather := Clear;
      totalHunted := 0;
      huntLog := [];
      activeAnimalsCount := 0;
      isTrackerVision := false;
      isAimAssistEnabled := true;
      scentTrails := [];
      bloodTrails := [];
      isCrouching := false;
      isProne := false;
      isAiming := false;
      jumpTriggered := 0;
      shootTriggered := 0;
    }

    method SetGameState(s: GameState)
      modifies this`gameState
      ensures gameState == s
    {
      gameState := s;
    }

    method AddScore(points: int)
      modifies this`score
      ensures score == old(score) + points
    {
      score := score + points;
    }

    /** The newest record goes to the front of the log; the kill counter follows the log. */
    method RecordHunt(record: HuntRecord)
      requires Valid()
      modifies this`huntLog, this`totalHunted
      ensures Valid()
      ensures huntLog == [record] + old(huntLog) && huntLog[0] == record
      ensures totalHunted == old(totalHunted) + 1
    {
      huntLog := [record] + huntLog;
      totalHunted := totalHunted + 1;
    }

    method UseAmmo()
      requires Valid()
      modifies this`ammo
      ensures Valid()
      ensures ammo == AmmoAfterShot(old(ammo))
    {
      ammo := if ammo - 1 > 0 then ammo - 1 else 0;
    }

    method ReloadAmmo()
      requires Valid()
      modifies this`ammo
      ensures Valid() && ammo == InitialAmmo
    {
      ammo := 10;
    }

    method SetAnimalsCount(count: int)
      modifies this`activeAnimalsCount
      ensures activeAnimalsCount == count
    {
      activeAnimalsCount := count;
    }

    method SetStamina(x: real)
      requires Valid()
      modifies this`stamina
      ensures Valid() && stamina == ClampStamina(x)
    {
      stamina := if x > 100.0 then 100.0 else if x < 0.0 then 0.0 else x;
    }

    method SetWeather(w: Weather)
      modifies this`weather
      ensures weather == w
    {
      weather := w;
    }

    method SetTrackerVision(active: bool)
      modifies this`isTrackerVision
      ensures isTrackerVision == active
    {
      isTrackerVision := active;
    }

    method SetAimAssist(enabled: bool)
      modifies this`isAimAssistEnabled
      ensures isAimAssistEnabled == enabled
    {
      isAimAssistEnabled := enabled;
    }

    /** Keeps the last 1000 old points in order and appends the new one last. */
    method AddScentPoint(p: ScentPoint)
      requires Valid()
      modifies this`scentTrails
      ensures Valid()
      ensures scentTrails == LastN(old(scentTrails), ScentKeep) + [p]
      ensures scentTrails[|scentTrails| - 1] == p
    {
      scentTrails := LastN(scentTrails, ScentKeep) + [p];
    }

    /** Keeps the last 500 old points in order and appends the new one last. */
    method AddBloodPoint(p: BloodPoint)
      requires Valid()
      modifies this`bloodTrails
      ensures Valid()
      ensures bloodTrails == LastN(old(bloodTrails), BloodKeep) + [p]
      ensures bloodTrails[|bloodTrails| - 1] == p
    {
      bloodTrails := LastN(bloodTrails, BloodKeep) + [p];
    }

    /** Sweeps scent older than 30 s and blood older than 60 s at wall-clock time now. */
    method CleanOldTrails(now: int)
      requires Valid()
      modifies this`scentTrails, this`bloodTrails
      ensures Valid()
      ensures scentTrails == FreshScent(old(scentTrails), now)
      ensures bloodTrails == FreshBlood(old(bloodTrails), now)
    {
      scentTrails := Filter(scentTrails, q => ScentFresh(q, now));
      bloodTrails := Filter(bloodTrails, q => BloodFresh(q, now));
    }

    /** Crouching and prone are set from one posture, so at most one is ever on. */
    method SetPosture(posture: Posture)
      requires Valid()
      modifies this`isCrouching, this`isProne
      ensures Valid()
      ensures isCrouching <==> posture == Crouching
      ensures isProne <==> posture == Prone
      ensures posture == Standing ==> !isCrouching && !isProne
    {
      isCrouching := posture == Crouching;
      isProne := posture == Prone;
    }

    method SetAiming(aiming: bool)
      modifies this`isAiming
      ensures isAiming == aiming
    {
      isAiming := aiming;
    }

    method TriggerJump()
      modifies this`jumpTriggered
      ensures jumpTriggered == old(jumpTriggered) + 1
    {
      jumpTriggered := jumpTriggered + 1;
    }

    method TriggerShoot()
      modifies this`shootTriggered
      ensures shootTriggered == old(shootTriggered) + 1
    {
      shootTriggered := shootTriggered + 1;
    }
  }
}
