// The blood-trail decals (components/BloodTrails.tsx): an instanced mesh of 500
// slots refilled every frame, newest point first, each decal shrinking to
// nothing over a minute; every ten seconds of clock time the frame first asks
// the store to sweep stale trails. Clock time and Date.now are parameters.

module BloodTrails {
  import opened Types
  import GameStore

  /** The number of instances in the mesh. */
  const MaxBloodPoints: nat := 500

  /** A decal fades out over this many milliseconds, the store's blood lifetime. */
  const FadeSpan: int := 60000

  /** The decal height above the ground. */
  const DecalHeight: real := 0.02

  /** What slot i shows at time now: the i-th newest point, flat on the ground and
      scaled by its remaining life, or nothing when there is no such point or its
      life is spent. */
  function SlotFor(trails: seq<BloodPoint>, i: nat, now: int): (s: Slot)
    ensures s.Drawn? ==> i < |trails| && s.position.y == DecalHeight
  {
    if i < |trails| then
      var p := trails[|trails| - 1 - i];
      var life := Life(now - p.timestamp, FadeSpan);
      if life > 0.0 then
        Drawn(Vec3(p.position.x, DecalHeight, p.position.z), Vec3(life * 0.2, life * 0.01, life * 0.2))
      else
        Hidden
    else
      Hidden
  }

  /** A slot shows a decal exactly when its point exists and is one the store's
      sweep at the same instant would keep; the decal sits on that point. */
  lemma DrawnIffFresh(trails: seq<BloodPoint>, i: nat, now: int)
    ensures SlotFor(trails, i, now).Drawn? <==>
      i < |trails| && GameStore.BloodFresh(trails[|trails| - 1 - i], now)
    ensures SlotFor(trails, i, now).Drawn? ==>
      var p := trails[|trails| - 1 - i];
      SlotFor(trails, i, now).position == Vec3(p.position.x, DecalHeight, p.position.z)
  {
  }

  /** A decal is never larger than (0.2, 0.01, 0.2) for a point from the past, and
      of two points the older one is drawn no larger than the newer one. */
  lemma DecalSizes(trails: seq<BloodPoint>, i: nat, j: nat, now: int)
    requires i < j < |trails|
    requires trails[|trails| - 1 - j].timestamp <= trails[|trails| - 1 - i].timestamp <= now
    requires SlotFor(trails, i, now).Drawn? && SlotFor(trails, j, now).Drawn?
    ensures 0.0 < SlotFor(trails, i, now).scale.x <= 0.2
    ensures SlotFor(trails, j, now).scale.x <= SlotFor(trails, i, now).scale.x
    ensures SlotFor(trails, j, now).scale.y <= SlotFor(trails, i, now).scale.y
  {
    var pi, pj := trails[|trails| - 1 - i], trails[|trails| - 1 - j];
    LifeMonotone(now - pi.timestamp, now - pj.timestamp, FadeSpan);
  }

  /** The store keeps at most 501 blood points while the mesh has 500 slots: every
      point but the oldest has a slot, and when all 501 are present the oldest is
      never drawn. */
  lemma OnlyOldestMissed(trails: seq<BloodPoint>, now: int)
    requires |trails| <= GameStore.BloodKeep + 1
    ensures forall k :: 1 <= k < |trails| && GameStore.BloodFresh(trails[k], now) ==>
      |trails| - 1 - k < MaxBloodPoints && SlotFor(trails, |trails| - 1 - k, now).Drawn?
    ensures |trails| == GameStore.BloodKeep + 1 ==>
      forall i :: 0 <= i < MaxBloodPoints && SlotFor(trails, i, now).Drawn? ==> |trails| - 1 - i >= 1
  {
    forall k | 1 <= k < |trails| && GameStore.BloodFresh(trails[k], now)
      ensures SlotFor(trails, |trails| - 1 - k, now).Drawn?
    {
      DrawnIffFresh(trails, |trails| - 1 - k, now);
    }
  }

  /** The sweep fires on frames whose clock time lies in the first 0.05 s of a
      ten-second period. */
  predicate SweepDue(elapsed: real)
  {
    JsRem(elapsed, 10.0) < 0.05
  }

  class Mesh {
    /** The instance matrices, one per slot. */
    var slots: array<Slot>

    ghost predicate Valid()
      reads this
    {
      slots.Length == MaxBloodPoints
    }

    constructor ()
      ensures Valid() && fresh(slots)
      ensures forall i :: 0 <= i < slots.Length ==> slots[i] == Hidden
    {
      slots := new Slot[MaxBloodPoints](_ => Hidden);
    }

    /** One frame: the sweep when due, then every slot refilled from the trail list
        the component rendered with, which is the list from before the sweep. */
    method Frame(store: GameStore.Store, elapsed: real, now: int)
      requires Valid() && store.Valid()
      modifies slots, store`scentTrails, store`bloodTrails
      ensures Valid() && store.Valid()
      ensures SweepDue(elapsed) ==>
        && store.scentTrails == GameStore.FreshScent(old(store.scentTrails), now)
        && store.bloodTrails == GameStore.FreshBlood(old(store.bloodTrails), now)
      ensures !SweepDue(elapsed) ==>
        store.scentTrails == old(store.scentTrails) && store.bloodTrails == old(store.bloodTrails)
      ensures forall i :: 0 <= i < MaxBloodPoints ==> slots[i] == SlotFor(old(store.bloodTrails), i, now)
    {
      var trails := store.bloodTrails;
      if JsRem(elapsed, 10.0) < 0.05 {
        store.CleanOldTrails(now);
      }
      for i := 0 to MaxBloodPoints
        invariant forall k :: 0 <= k < i ==> slots[k] == SlotFor(trails, k, now)
        modifies slots
      {
        if i < |trails| {
          var p := trails[|trails| - 1 - i];
          var life := Max(0.0, 1.0 - (now - p.timestamp) as real / FadeSpan as real);
          if life > 0.0 {
            slots[i] := Drawn(Vec3(p.position.x, DecalHeight, p.position.z),
                              Vec3(life * 0.2, life * 0.01, life * 0.2));
          } else {
            slots[i] := Hidden;
          }
        } else {
          slots[i] := Hidden;
        }
      }
    }
  }
}
