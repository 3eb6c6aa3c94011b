/**
 * The voxel occupancy grid of a brick list, described by the bricks themselves, and the
 * geometric predicates of a structure: bounds, collisions and floating bricks. The grid
 * of a structure in a world of side D holds, at every voxel (i, j, k) with 0 <= i, j, k < D,
 * the number of listed bricks whose volume slice holds the voxel; slices reaching past the
 * world are clipped to it, as numpy clips them.
 */
module Grid {
  import opened Bricks

  /** The number of bricks in bs whose volume slice holds voxel (i, j, k). */
  function Count(bs: seq<Brick>, i: int, j: int, k: int): (n: nat)
    ensures n <= |bs|
    ensures n > 0 <==> exists p | 0 <= p < |bs| :: Covers(bs[p], i, j, k)
  {
    if bs == [] then 0
    else
      var init := bs[..|bs| - 1];
      assert forall p | 0 <= p < |init| :: init[p] == bs[p];
      Count(init, i, j, k) + (if Covers(bs[|bs| - 1], i, j, k) then 1 else 0)
  }

  /** Appending a brick adds one to exactly the voxels of its slice. */
  lemma CountAppend(bs: seq<Brick>, b: Brick, i: int, j: int, k: int)
    ensures Count(bs + [b], i, j, k) == Count(bs, i, j, k) + (if Covers(b, i, j, k) then 1 else 0)
  {
    assert (bs + [b])[..|bs|] == bs;
  }

  /** An over-full voxel is held by two different listed bricks. */
  lemma {:induction false} CoveringPair(bs: seq<Brick>, i: int, j: int, k: int) returns (p: int, q: int)
    requires Count(bs, i, j, k) > 1
    ensures 0 <= p < q < |bs| && Covers(bs[p], i, j, k) && Covers(bs[q], i, j, k)
  {
    var n := |bs| - 1;
    var init := bs[..n];
    assert forall r | 0 <= r < n :: init[r] == bs[r];
    if Count(init, i, j, k) > 1 {
      p, q := CoveringPair(init, i, j, k);
    } else {
      p :| 0 <= p < n && Covers(init[p], i, j, k);
      q := n;
    }
  }

  /** A voxel held by two different listed bricks is over-full. */
  lemma {:induction false} PairOverfills(bs: seq<Brick>, i: int, j: int, k: int, p: int, q: int)
    requires 0 <= p < q < |bs| && Covers(bs[p], i, j, k) && Covers(bs[q], i, j, k)
    ensures Count(bs, i, j, k) > 1
  {
    var n := |bs| - 1;
    var init := bs[..n];
    assert init[p] == bs[p];
    if q < n {
      assert init[q] == bs[q];
      PairOverfills(init, i, j, k, p, q);
    } else {
      assert Count(init, i, j, k) > 0;
    }
  }

  /** A voxel is over-full exactly when two different listed bricks hold it. */
  lemma CountAboveOne(bs: seq<Brick>, i: int, j: int, k: int)
    ensures Count(bs, i, j, k) > 1
      <==> exists p, q | 0 <= p < q < |bs| :: Covers(bs[p], i, j, k) && Covers(bs[q], i, j, k)
  {
    if Count(bs, i, j, k) > 1 {
      var p, q := CoveringPair(bs, i, j, k);
    }
    if exists p, q | 0 <= p < q < |bs| :: Covers(bs[p], i, j, k) && Covers(bs[q], i, j, k) {
      var p, q :| 0 <= p < q < |bs| && Covers(bs[p], i, j, k) && Covers(bs[q], i, j, k);
      PairOverfills(bs, i, j, k, p, q);
    }
  }

  function Max(a: int, b: int): int { if a < b then b else a }

  function Min(a: int, b: int): int { if a < b then a else b }

  /** The voxel lies in a world of side D. */
  predicate InWorld(D: int, i: int, j: int, k: int) {
    0 <= i < D && 0 <= j < D && 0 <= k < D
  }

  /** Cell (i, j) belongs to the part of b's footprint inside a world of side D. */
  predicate InFootprint(D: int, b: Brick, i: int, j: int) {
    0 <= i < D && 0 <= j < D && b.x <= i < b.x + b.h && b.y <= j < b.y + b.w
  }

  /** The in-world parts of the footprints of a and c overlap: both clipped intervals meet. */
  predicate FootprintsMeet(D: int, a: Brick, c: Brick) {
    Max(Max(a.x, c.x), 0) < Min(Min(a.x + a.h, c.x + c.h), D)
    && Max(Max(a.y, c.y), 0) < Min(Min(a.y + a.w, c.y + c.w), D)
  }

  /** Overlapping footprints share their lowest common cell. */
  lemma MeetingCell(D: int, a: Brick, c: Brick)
    requires FootprintsMeet(D, a, c)
    ensures var (i, j) := (Max(Max(a.x, c.x), 0), Max(Max(a.y, c.y), 0));
      InFootprint(D, a, i, j) && InFootprint(D, c, i, j)
  {
  }

  /** Footprints that share a cell overlap. */
  lemma SharedCellMeets(D: int, a: Brick, c: Brick, i: int, j: int)
    requires InFootprint(D, a, i, j) && InFootprint(D, c, i, j)
    ensures FootprintsMeet(D, a, c)
  {
  }

  /** Some bricks of bs lie on layer k under b's in-world footprint. */
  predicate MeetsAtLayer(D: int, bs: seq<Brick>, b: Brick, k: int) {
    exists p | 0 <= p < |bs| :: bs[p].z == k && FootprintsMeet(D, b, bs[p])
  }

  /** `np.any(grid[b.slice_2d] at layer k)` is the same as a brick on layer k overlapping b. */
  lemma OccupiedUnderFootprint(D: int, bs: seq<Brick>, b: Brick, k: int)
    ensures (exists i, j | InFootprint(D, b, i, j) :: Count(bs, i, j, k) > 0) <==> MeetsAtLayer(D, bs, b, k)
  {
    if exists i, j | InFootprint(D, b, i, j) :: Count(bs, i, j, k) > 0 {
      var i, j :| InFootprint(D, b, i, j) && Count(bs, i, j, k) > 0;
      var p :| 0 <= p < |bs| && Covers(bs[p], i, j, k);
      SharedCellMeets(D, b, bs[p], i, j);
    }
    if MeetsAtLayer(D, bs, b, k) {
      var p :| 0 <= p < |bs| && bs[p].z == k && FootprintsMeet(D, b, bs[p]);
      MeetingCell(D, b, bs[p]);
      var i, j := Max(Max(b.x, bs[p].x), 0), Max(Max(b.y, bs[p].y), 0);
      assert Covers(bs[p], i, j, k);
      assert InFootprint(D, b, i, j) && Count(bs, i, j, k) > 0;
    }
  }

  /** Two different bricks of bs on the same in-world layer overlap. */
  predicate Colliding(D: int, bs: seq<Brick>) {
    exists p, q | 0 <= p < q < |bs| :: bs[p].z == bs[q].z && 0 <= bs[p].z < D && FootprintsMeet(D, bs[p], bs[q])
  }

  /** `np.any(grid > 1)` holds exactly when two listed bricks overlap inside the world. */
  lemma CollisionIff(D: int, bs: seq<Brick>)
    ensures (exists i, j, k | InWorld(D, i, j, k) :: Count(bs, i, j, k) > 1) <==> Colliding(D, bs)
  {
    if exists i, j, k | InWorld(D, i, j, k) :: Count(bs, i, j, k) > 1 {
      var i, j, k :| InWorld(D, i, j, k) && Count(bs, i, j, k) > 1;
      OverfullCollides(D, bs, i, j, k);
    }
    if Colliding(D, bs) {
      var p, q :| 0 <= p < q < |bs| && bs[p].z == bs[q].z && 0 <= bs[p].z < D && FootprintsMeet(D, bs[p], bs[q]);
      var i, j, k := CollisionOverfills(D, bs, p, q);
    }
  }

  /** An over-full voxel inside the world makes the two bricks holding it collide. */
  lemma OverfullCollides(D: int, bs: seq<Brick>, i: int, j: int, k: int)
    requires InWorld(D, i, j, k) && Count(bs, i, j, k) > 1
    ensures Colliding(D, bs)
  {
    var p, q := CoveringPair(bs, i, j, k);
    SharedCellMeets(D, bs[p], bs[q], i, j);
  }

  /** Two colliding bricks over-fill their lowest common voxel. */
  lemma CollisionOverfills(D: int, bs: seq<Brick>, p: int, q: int) returns (i: int, j: int, k: int)
    requires 0 <= p < q < |bs| && bs[p].z == bs[q].z && 0 <= bs[p].z < D && FootprintsMeet(D, bs[p], bs[q])
    ensures InWorld(D, i, j, k) && Count(bs, i, j, k) > 1
  {
    MeetingCell(D, bs[p], bs[q]);
    i, j, k := Max(Max(bs[p].x, bs[q].x), 0), Max(Max(bs[p].y, bs[q].y), 0), bs[p].z;
    assert Covers(bs[p], i, j, k) && Covers(bs[q], i, j, k);
    PairOverfills(bs, i, j, k, p, q);
  }

  /** brick_in_bounds: the footprint lies inside [0, D) on both axes and the layer is a grid layer. */
  predicate InBounds(D: int, b: Brick) {
    b.x >= 0 && b.x + b.h <= D && b.y >= 0 && b.y + b.w <= D && 0 <= b.z < D
  }

  predicate AnyOutOfBounds(D: int, bs: seq<Brick>) {
    exists p | 0 <= p < |bs| :: !InBounds(D, bs[p])
  }

  /** Every voxel an in-bounds brick holds is inside the world and under its footprint. */
  lemma InBoundsMeansCellsInWorld(D: int, b: Brick, i: int, j: int)
    requires InBounds(D, b)
    ensures Covers(b, i, j, b.z) ==> InWorld(D, i, j, b.z) && InFootprint(D, b, i, j)
  {
  }

  /**
   * A brick the grid can be updated with without numpy wrapping a negative index or
   * raising on the layer: slices start at a non-negative cell and do not end before cell 0,
   * and the layer is a grid layer.
   */
  predicate Placeable(D: int, b: Brick) {
    0 <= b.x && 0 <= b.x + b.h && 0 <= b.y && 0 <= b.y + b.w && 0 <= b.z < D
  }

  predicate AllPlaceable(D: int, bs: seq<Brick>) {
    forall p | 0 <= p < |bs| :: Placeable(D, bs[p])
  }

  /**
   * brick_floats: off the ground, nothing under the footprint on the layer below, and,
   * unless on the top layer, nothing over it on the layer above.
   */
  predicate Floats(D: int, bs: seq<Brick>, b: Brick) {
    b.z != 0 && !MeetsAtLayer(D, bs, b, b.z - 1) && (b.z == D - 1 || !MeetsAtLayer(D, bs, b, b.z + 1))
  }

  predicate AnyFloating(D: int, bs: seq<Brick>) {
    exists p | 0 <= p < |bs| :: Floats(D, bs, bs[p])
  }

  /** The bounds test vectors: a 2x6 brick fits at x = 0 and x = 18 of a 20-wide world, not at 19. */
  lemma BoundsVectors()
    ensures InBounds(20, Brick(2, 6, 0, 0, 0))
    ensures InBounds(20, Brick(2, 6, 18, 0, 0))
    ensures !InBounds(20, Brick(2, 6, 19, 0, 0))
  {
  }

  /** The collision test vectors: 2x6 bricks at x = 0 and x = 1 collide; at x = 0 and x = 2 they touch. */
  lemma CollisionVectors()
    ensures Colliding(20, [Brick(2, 6, 0, 0, 0), Brick(2, 6, 1, 0, 0)])
    ensures !Colliding(20, [Brick(2, 6, 0, 0, 0), Brick(2, 6, 2, 0, 0)])
  {
    var bs := [Brick(2, 6, 0, 0, 0), Brick(2, 6, 1, 0, 0)];
    assert FootprintsMeet(20, bs[0], bs[1]);
  }

  /**
   * The floating test vectors: a brick on layer 1 next to, not over, a ground brick floats;
   * two ground bricks do not; a brick under another is held from above.
   */
  lemma FloatingVectors()
    ensures AnyFloating(20, [Brick(2, 6, 0, 0, 0), Brick(2, 6, 2, 0, 1)])
    ensures !AnyFloating(20, [Brick(2, 6, 0, 0, 0), Brick(2, 6, 2, 0, 0)])
    ensures !AnyFloating(20, [Brick(2, 6, 0, 0, 1), Brick(2, 6, 0, 0, 2)])
    ensures !Colliding(20, [Brick(2, 6, 0, 0, 1), Brick(2, 6, 0, 0, 2)])
  {
    var bs := [Brick(2, 6, 0, 0, 0), Brick(2, 6, 2, 0, 1)];
    assert Floats(20, bs, bs[1]);
    var cs := [Brick(2, 6, 0, 0, 1), Brick(2, 6, 0, 0, 2)];
    assert FootprintsMeet(20, cs[0], cs[1]) && FootprintsMeet(20, cs[1], cs[0]);
    assert MeetsAtLayer(20, cs, cs[0], 2) && MeetsAtLayer(20, cs, cs[1], 1);
  }
}
