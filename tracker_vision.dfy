// The tracker-vision overlay (components/TrackerVision.tsx): an instanced mesh of
// 1000 glowing markers refilled every frame from the scent trails, newest point
// first, each marker shrinking to nothing over thirty seconds; the whole mesh is
// shown only while tracker vision is on. Every five seconds of clock time the
// frame first asks the store to sweep stale trails. Clock time and Date.now are
// parameters.

module TrackerVision {
  import opened Types
  import GameStore

  /** The number of instances in the mesh. */
  const MaxPoints: nat := 1000

  /** A marker fades out over this many milliseconds, the store's scent lifetime. */
  const FadeSpan: int := 30000

  /** The marker height above the ground. */
  const MarkerHeight: real := 0.1

  /** What slot i shows at time now: with tracker vision on, the i-th newest scent
      point scaled uniformly by 0.4 times its remaining life (a spent point keeps
      its slot at zero size); otherwise nothing. */
  function SlotFor(trails: seq<ScentPoint>, vision: bool, i: nat, now: int): (s: Slot)
    ensures s.Drawn? <==> vision && i < |trails|
    ensures s.Drawn? ==>
      && s.position.y == MarkerHeight
      && s.scale.x == s.scale.y == s.scale.z >= 0.0
  {
    if i < |trails| && vision then
      var p := trails[|trails| - 1 - i];
      var life := Life(now - p.timestamp, FadeSpan);
      Drawn(Vec3(p.position.x, MarkerHeight, p.position.z), Vec3(life * 0.4, life * 0.4, life * 0.4))
    else
      Hidden
  }

  /** A drawn marker sits on its scent point and has a visible size exactly when
      the store's sweep at the same instant would keep the point. */
  lemma SizeIffFresh(trails: seq<ScentPoint>, i: nat, now: int)
    requires i < |trails|
    ensures var s := SlotFor(trails, true, i, now);
      var p := trails[|trails| - 1 - i];
      && s.position == Vec3(p.position.x, MarkerHeight, p.position.z)
      && (s.scale.x > 0.0 <==> GameStore.ScentFresh(p, now))
  {
  }

  /** A marker for a point from the past is at most 0.4 across, and the older of two
      points is drawn no larger. */
  lemma MarkerSizes(trails: seq<ScentPoint>, i: nat, j: nat, now: int)
    requires i < j < |trails|
    requires trails[|trails| - 1 - j].timestamp <= trails[|trails| - 1 - i].timestamp <= now
    ensures SlotFor(trails, true, i, now).scale.x <= 0.4
    ensures SlotFor(trails, true, j, now).scale.x <= SlotFor(trails, true, i, now).scale.x
  {
    var pi, pj := trails[|trails| - 1 - i], trails[|trails| - 1 - j];
    LifeMonotone(now - pi.timestamp, now - pj.timestamp, FadeSpan);
  }

  /** The store keeps at most 1001 scent points while the mesh has 1000 slots: with
      tracker vision on, every point but the oldest gets a marker on its spot. */
  lemma OnlyOldestMissed(trails: seq<ScentPoint>, now: int)
    requires |trails| <= GameStore.ScentKeep + 1
    ensures forall i :: 0 <= i < |trails| - 1 ==>
      && i < MaxPoints
      && SlotFor(trails, true, i, now).Drawn?
      && SlotFor(trails, true, i, now).position.x == trails[|trails| - 1 - i].position.x
  {
  }

  /** The sweep fires on frames whose clock time lies in the first 0.05 s of a
      five-second period. */
  predicate SweepDue(elapsed: real)
  {
    JsRem(elapsed, 5.0) < 0.05
  }

  class Mesh {
    /** The instance matrices, one per slot. */
    var slots: array<Slot>
    /** Whether the mesh is rendered at all. */
    var visible: bool

    ghost predicate Valid()
      reads this
    {
      slots.Length == MaxPoints
    }

    constructor ()
      ensures Valid() && fresh(slots) && visible
      ensures forall i :: 0 <= i < slots.Length ==> slots[i] == Hidden
    {
      slots := new Slot[MaxPoints](_ => Hidden);
      visible := true;
    }

    /** One frame: the sweep when due, then every slot refilled from the scent list
        the component rendered with (the list from before the sweep), and the mesh
        shown exactly when tracker vision is on. */
    method Frame(store: GameStore.Store, elapsed: real, now: int)
      requires Valid() && store.Valid()
      modifies this`visible, slots, store`scentTrails, store`bloodTrails
      ensures Valid() && store.Valid()
      ensures SweepDue(elapsed) ==>
        && store.scentTrails == GameStore.FreshScent(old(store.scentTrails), now)
        && store.bloodTrails == GameStore.FreshBlood(old(store.bloodTrails), now)
      ensures !SweepDue(elapsed) ==>
        store.scentTrails == old(store.scentTrails) && store.bloodTrails == old(store.bloodTrails)
      ensures forall i :: 0 <= i < MaxPoints ==>
        slots[i] == SlotFor(old(store.scentTrails), store.isTrackerVision, i, now)
      ensures visible == store.isTrackerVision
      ensures !visible ==> forall i :: 0 <= i < MaxPoints ==> slots[i] == Hidden
    {
      var trails := store.scentTrails;
      var vision := store.isTrackerVision;
      if JsRem(elapsed, 5.0) < 0.05 {
        store.CleanOldTrails(now);
      }
      for i := 0 to MaxPoints
        invariant forall k :: 0 <= k < i ==> slots[k] == SlotFor(trails, vision, k, now)
        modifies slots
      {
        if i < |trails| && vision {
          var p := trails[|trails| - 1 - i];
          var life := Max(0.0, 1.0 - (now - p.timestamp) as real / FadeSpan as real);
          slots[i] := Drawn(Vec3(p.position.x, MarkerHeight, p.position.z),
                            Vec3(life * 0.4, life * 0.4, life * 0.4));
        } else {
          slots[i] := Hidden;
        }
      }
      visible := vision;
    }
  }
}
