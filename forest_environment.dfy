// Tree and rock placement (components/ForestEnvironment.tsx): a grid-jitter
// generator that walks a 29 x 29 grid over the world, jitters one tree inside
// each cell, skips the player's start zone and stops at the tree budget; and a
// scatter of 150 rocks. The Math.random draws come in as a stream.

module ForestEnvironment {
  import opened Types
  import opened Constants
  import GameStore

  const RockCount: nat := 150

  /** Math.ceil(Math.sqrt(TREE_COUNT)). */
  const GridSize: nat := 29

  /** The cell width (WORLD_SIZE * 2) / gridSize. */
  const Step: real := WorldSize * 2.0 / GridSize as real

  /** Trees closer than 18 to the origin are skipped; 324 is 18 squared. */
  const ExclusionSq: real := 324.0

  /** 29 is the smallest n with n * n >= 800, so it is the ceiling of the square root of 800. */
  lemma GridSizeIsCeilSqrt()
    ensures (GridSize - 1) * (GridSize - 1) < TreeCount <= GridSize * GridSize
    ensures forall n: nat :: n * n >= TreeCount ==> n >= GridSize
  {
    forall n: nat | n * n >= TreeCount ensures n >= GridSize {
      if n < GridSize {
        assert n <= 28;
        MulMono(n, 28);
      }
    }
  }

  lemma MulMono(a: nat, b: nat)
    requires a <= b
    ensures a * a <= b * b
  {
  }

  /** The lower corner of grid cell (i, j). */
  function CellBase(i: nat, j: nat): (real, real)
  {
    (-WorldSize + i as real * Step, -WorldSize + j as real * Step)
  }

  /** p lies within 0.4 of a cell width of the base of cell (i, j) on each axis. */
  predicate NearCell(p: Vec3, i: nat, j: nat)
  {
    var (bx, bz) := CellBase(i, j);
    -0.4 * Step <= p.x - bx < 0.4 * Step && -0.4 * Step <= p.z - bz < 0.4 * Step
  }

  /** A tree is kept unless it falls inside the player's start zone. */
  predicate OutsideStart(p: Vec3)
  {
    p.x * p.x + p.z * p.z >= ExclusionSq
  }

  /** The jitter (r - 0.5) * step * 0.8 of one unit draw stays in [-0.4 step, 0.4 step). */
  lemma JitterBounds(r: real)
    requires 0.0 <= r < 1.0
    ensures -0.4 * Step <= (r - 0.5) * Step * 0.8 < 0.4 * Step
  {
  }

  /** What the generator has built so far: the trees are the visited cells' spots
      outside the start zone, each spot on the ground near its own cell, with a
      heading and a size per tree. */
  ghost predicate Planted(pos: seq<Vec3>, rot: seq<real>, sca: seq<real>, spots: seq<Vec3>)
  {
    && |pos| == |rot| == |sca| <= TreeCount
    && pos == GameStore.Filter(spots, OutsideStart)
    && (forall k :: 0 <= k < |spots| ==> spots[k].y == 0.0)
    && (forall k :: 0 <= k < |spots| ==> NearCell(spots[k], k / GridSize, k % GridSize))
    && (forall k :: 0 <= k < |rot| ==> 0.0 <= rot[k] < Pi * 2.0)
    && (forall k :: 0 <= k < |sca| ==> 0.9 <= sca[k] < 2.3)
  }

  /** Visiting cell (i, j) with jittered spot p: the spot is recorded, and the tree
      is kept with heading draw r and size draw q exactly when p is outside the zone. */
  lemma PlantStep(pos: seq<Vec3>, rot: seq<real>, sca: seq<real>, spots: seq<Vec3>, p: Vec3,
                  i: nat, j: nat, r: real, q: real)
    requires Planted(pos, rot, sca, spots) && |pos| < TreeCount
    requires i < GridSize && j < GridSize && |spots| == GridSize * i + j
    requires NearCell(p, i, j) && p.y == 0.0 && 0.0 <= r < 1.0 && 0.0 <= q < 1.0
    ensures OutsideStart(p) ==>
      Planted(pos + [p], rot + [r * Pi * 2.0], sca + [0.9 + q * 1.4], spots + [p])
    ensures !OutsideStart(p) ==> Planted(pos, rot, sca, spots + [p])
  {
    SpotStep(spots, p, i, j);
    GameStore.FilterConcat(spots, [p], OutsideStart);
    assert GameStore.Filter([p], OutsideStart) == if OutsideStart(p) then [p] else [];
    assert forall k :: 0 <= k < |spots| ==> (spots + [p])[k] == spots[k];
  }

  /** Generates the trees from the draw stream rnd: for each visited cell two draws
      jitter the position and, if the tree is kept, two more give its heading and
      size. spots holds the jittered point of every visited cell, in grid order
      (cell (i, j) is spot i * 29 + j); the trees are exactly those spots outside
      the start zone, and cells are visited until the tree budget is met or the
      grid is exhausted. */
  method GenerateTrees(rnd: seq<real>) returns (pos: seq<Vec3>, rot: seq<real>, sca: seq<real>, ghost spots: seq<Vec3>)
    requires AllUnit(rnd) && |rnd| >= 4 * GridSize * GridSize
    ensures |pos| == |rot| == |sca| <= TreeCount
    ensures |spots| <= GridSize * GridSize
    ensures pos == GameStore.Filter(spots, OutsideStart)
    ensures |pos| == TreeCount || |spots| == GridSize * GridSize
    ensures forall k :: 0 <= k < |spots| ==> spots[k].y == 0.0
    ensures forall k :: 0 <= k < |spots| ==> NearCell(spots[k], k / GridSize, k % GridSize)
    ensures forall k :: 0 <= k < |rot| ==> 0.0 <= rot[k] < Pi * 2.0
    ensures forall k :: 0 <= k < |sca| ==> 0.9 <= sca[k] < 2.3
  {
    pos, rot, sca, spots := [], [], [], [];
    var c: nat := 0;
    for i := 0 to GridSize
      invariant Planted(pos, rot, sca, spots)
      invariant |spots| <= GridSize * i
      invariant |spots| < GridSize * i ==> |pos| == TreeCount
      invariant c <= 4 * |spots|
    {
      pos, rot, sca, spots, c := PlantRow(rnd, i, pos, rot, sca, spots, c);
    }
  }

  /** One pass of the inner loop over row i of the grid, from draw c on; it
      stops as soon as the tree budget is met. */
  method PlantRow(rnd: seq<real>, i: nat, pos0: seq<Vec3>, rot0: seq<real>, sca0: seq<real>,
                  ghost spots0: seq<Vec3>, c0: nat)
    returns (pos: seq<Vec3>, rot: seq<real>, sca: seq<real>, ghost spots: seq<Vec3>, c: nat)
    requires AllUnit(rnd) && |rnd| >= 4 * GridSize * GridSize && i < GridSize
    requires Planted(pos0, rot0, sca0, spots0)
    requires |spots0| <= GridSize * i && (|spots0| < GridSize * i ==> |pos0| == TreeCount)
    requires c0 <= 4 * |spots0|
    ensures Planted(pos, rot, sca, spots)
    ensures |spots| <= GridSize * (i + 1) && (|spots| < GridSize * (i + 1) ==> |pos| == TreeCount)
    ensures c <= 4 * |spots|
  {
    pos, rot, sca, spots, c := pos0, rot0, sca0, spots0, c0;
    for j := 0 to GridSize
      invariant Planted(pos, rot, sca, spots)
      invariant |spots| <= GridSize * i + j
      invariant |spots| < GridSize * i + j ==> |pos| == TreeCount
      invariant c <= 4 * |spots|
    {
      if |pos| >= TreeCount {
        break;
      }
      var baseX := -WorldSize + i as real * Step;
      var baseZ := -WorldSize + j as real * Step;
      var x := baseX + (rnd[c] - 0.5) * Step * 0.8;
      var z := baseZ + (rnd[c + 1] - 0.5) * Step * 0.8;
      JitterBounds(rnd[c]);
      JitterBounds(rnd[c + 1]);
      c := c + 2;
      var p := Vec3(x, 0.0, z);
      PlantStep(pos, rot, sca, spots, p, i, j, rnd[c], rnd[c + 1]);
      spots := spots + [p];
      if !OutsideStart(p) {
        continue;
      }
      pos := pos + [p];
      rot := rot + [rnd[c] * Pi * 2.0];
      sca := sca + [0.9 + rnd[c + 1] * 1.4];
      c := c + 2;
    }
  }

  /** Appending the spot of cell (i, j) at index i * 29 + j keeps every spot near its own cell. */
  lemma SpotStep(spots: seq<Vec3>, p: Vec3, i: nat, j: nat)
    requires i < GridSize && j < GridSize && |spots| == GridSize * i + j && NearCell(p, i, j)
    requires forall k :: 0 <= k < |spots| ==> NearCell(spots[k], k / GridSize, k % GridSize)
    ensures forall k :: 0 <= k < |spots| + 1 ==> NearCell((spots + [p])[k], k / GridSize, k % GridSize)
  {
    var k := |spots|;
    CellIndexUnique(k / GridSize, k % GridSize, i, j);
    assert (spots + [p])[k] == p;
    assert forall k' :: 0 <= k' < |spots| ==> (spots + [p])[k'] == spots[k'];
  }

  /** Row-major cell numbering is one-to-one. */
  lemma CellIndexUnique(i: nat, j: nat, i': nat, j': nat)
    requires j < GridSize && j' < GridSize && GridSize * i + j == GridSize * i' + j'
    ensures i == i' && j == j'
  {
  }

  /** A rock: position on the ground, an Euler rotation of three draws, and a size. */
  datatype RockData = RockData(pos: Vec3, rot: Vec3, scale: real)

  /** The rock made from six consecutive draws. */
  function NewRock(r: seq<real>): (rock: RockData)
    requires |r| == 6
    ensures rock.pos.y == 0.0
  {
    RockData(Vec3((r[0] - 0.5) * WorldSize * 1.9, 0.0, (r[1] - 0.5) * WorldSize * 1.9),
             Vec3(r[2], r[3], r[4]), 0.5 + r[5] * 1.5)
  }

  /** A rock from unit draws lies in a square of half-width 237.5 and is sized in [0.5, 2). */
  lemma NewRockBounds(r: seq<real>)
    requires |r| == 6 && AllUnit(r)
    ensures var rock := NewRock(r);
      && -237.5 <= rock.pos.x < 237.5 && -237.5 <= rock.pos.z < 237.5
      && 0.5 <= rock.scale < 2.0
  {
  }

  /** Exactly 150 rocks, the k-th made from draws 6k to 6k + 5. */
  method GenerateRocks(rnd: seq<real>) returns (rocks: seq<RockData>)
    requires |rnd| >= 6 * RockCount
    ensures |rocks| == RockCount
    ensures forall k :: 0 <= k < |rocks| ==> rocks[k] == NewRock(rnd[6 * k..6 * k + 6])
  {
    rocks := [];
    for i := 0 to RockCount
      invariant |rocks| == i
      invariant forall k :: 0 <= k < i ==> rocks[k] == NewRock(rnd[6 * k..6 * k + 6])
    {
      rocks := rocks + [NewRock(rnd[6 * i..6 * i + 6])];
    }
  }
}
