/**
 * BrickStructure: a list of bricks together with the voxel occupancy grid of a cubic
 * world, kept in step with the list by every operation. The grid is a D x D x D array
 * whose cell (i, j, k) holds the number of listed bricks whose volume slice holds it.
 */
module Structure {
  import opened Results
  import opened BrickLibrary
  import opened Bricks
  import opened BrickText
  import opened Grid
  import opened StructureCodecs
  import Gates

  /** The world side the structure-level decoders build with. */
  const DefaultWorldDim: nat := 20

  class BrickStructure {
    const worldDim: nat
    const occupancy: array3<int>
    var bricks: seq<Brick>

    /** The grid has the world's shape and counts, at every cell, the listed bricks holding it. */
    ghost predicate Valid()
      reads this, occupancy
    {
      occupancy.Length0 == worldDim && occupancy.Length1 == worldDim && occupancy.Length2 == worldDim
      && AllPlaceable(worldDim, bricks)
      && forall i, j, k | InWorld(worldDim, i, j, k) :: occupancy[i, j, k] == Count(bricks, i, j, k)
    }

    /** __init__: an empty grid, then every brick added in order. */
    constructor (bs: seq<Brick>, dim: nat)
      requires AllPlaceable(dim, bs)
      ensures Valid() && bricks == bs && worldDim == dim
      ensures fresh(occupancy)
    {
      worldDim := dim;
      occupancy := new int[dim, dim, dim]((i, j, k) => 0);
      bricks := [];
      new;
      var n := 0;
      while n < |bs|
        invariant 0 <= n <= |bs|
        invariant Valid() && bricks == bs[..n] && worldDim == dim && fresh(occupancy)
      {
        assert bs[..n + 1] == bs[..n] + [bs[n]];
        AddBrick(bs[n]);
        n := n + 1;
      }
      assert bs[..|bs|] == bs;
    }

    /** add_brick: the brick is appended and every grid cell of its (clipped) slice gains one. */
    method AddBrick(b: Brick)
      requires Valid() && Placeable(worldDim, b)
      modifies this, occupancy
      ensures Valid()
      ensures bricks == old(bricks) + [b]
      ensures forall i, j, k | InWorld(worldDim, i, j, k) ::
        occupancy[i, j, k] == old(occupancy[i, j, k]) + (if Covers(b, i, j, k) then 1 else 0)
    {
      var (sx, sy, z) := Slice(b);
      forall i, j | 0 <= i < worldDim && 0 <= j < worldDim && sx.start <= i < sx.stop && sy.start <= j < sy.stop {
        occupancy[i, j, z] := occupancy[i, j, z] + 1;
      }
      forall i, j, k | InWorld(worldDim, i, j, k)
        ensures Count(bricks + [b], i, j, k) == Count(bricks, i, j, k) + (if Covers(b, i, j, k) then 1 else 0)
      {
        CountAppend(bricks, b, i, j, k);
      }
      bricks := bricks + [b];
    }

    /**
     * undo_add_brick: the last brick is dropped and every grid cell of its slice loses one.
     * An empty structure raises IndexError and stays as it is.
     */
    method UndoAddBrick() returns (r: Outcome)
      requires Valid()
      modifies this, occupancy
      ensures Valid()
      ensures old(bricks) == [] ==> r == Fail(IndexError) && bricks == old(bricks) && unchanged(occupancy)
      ensures old(bricks) != [] ==> r == Pass && bricks == old(bricks)[..|old(bricks)| - 1]
      ensures old(bricks) != [] ==> forall i, j, k | InWorld(worldDim, i, j, k) ::
        occupancy[i, j, k] == old(occupancy[i, j, k]) - (if Covers(old(bricks)[|old(bricks)| - 1], i, j, k) then 1 else 0)
    {
      if bricks == [] {
        return Fail(IndexError);
      }
      var b := bricks[|bricks| - 1];
      var (sx, sy, z) := Slice(b);
      forall i, j | 0 <= i < worldDim && 0 <= j < worldDim && sx.start <= i < sx.stop && sy.start <= j < sy.stop {
        occupancy[i, j, z] := occupancy[i, j, z] - 1;
      }
      var rest := bricks[..|bricks| - 1];
      assert rest + [b] == bricks;
      forall i, j, k | InWorld(worldDim, i, j, k)
        ensures Count(bricks, i, j, k) == Count(rest, i, j, k) + (if Covers(b, i, j, k) then 1 else 0)
      {
        CountAppend(rest, b, i, j, k);
      }
      bricks := rest;
      return Pass;
    }

    /** Undoing an add restores the brick list and the whole grid. */
    method AddThenUndo(b: Brick)
      requires Valid() && Placeable(worldDim, b)
      modifies this, occupancy
      ensures Valid() && bricks == old(bricks)
      ensures forall i, j, k | InWorld(worldDim, i, j, k) :: occupancy[i, j, k] == old(occupancy[i, j, k])
    {
      AddBrick(b);
      var r := UndoAddBrick();
      assert (old(bricks) + [b])[..|old(bricks)|] == old(bricks);
    }

    /** brick_in_bounds, on the brick's slices. */
    function BrickInBounds(b: Brick): (r: bool)
      reads this
      ensures r <==> InBounds(worldDim, b)
    {
      var (sx, sy) := Slice2d(b);
      sx.start >= 0 && sx.stop <= worldDim && sy.start >= 0 && sy.stop <= worldDim && 0 <= b.z < worldDim
    }

    function HasOutOfBoundsBricks(): (r: bool)
      reads this
      ensures r <==> AnyOutOfBounds(worldDim, bricks)
    {
      exists p | 0 <= p < |bricks| :: !BrickInBounds(bricks[p])
    }

    /** has_collisions: some grid cell counts more than one brick. */
    function HasCollisions(): (r: bool)
      reads this, occupancy
      requires Valid()
      ensures r <==> Colliding(worldDim, bricks)
    {
      OverfullCells();
      exists i, j, k | 0 <= i < worldDim && 0 <= j < worldDim && 0 <= k < worldDim :: occupancy[i, j, k] > 1
    }

    lemma OverfullCells()
      requires Valid()
      ensures (exists i, j, k | 0 <= i < worldDim && 0 <= j < worldDim && 0 <= k < worldDim :: occupancy[i, j, k] > 1)
        <==> Colliding(worldDim, bricks)
    {
      CollisionIff(worldDim, bricks);
      if exists i, j, k | 0 <= i < worldDim && 0 <= j < worldDim && 0 <= k < worldDim :: occupancy[i, j, k] > 1 {
        var i, j, k :| 0 <= i < worldDim && 0 <= j < worldDim && 0 <= k < worldDim && occupancy[i, j, k] > 1;
        assert InWorld(worldDim, i, j, k) && Count(bricks, i, j, k) > 1;
      }
      if Colliding(worldDim, bricks) {
        var i, j, k :| InWorld(worldDim, i, j, k) && Count(bricks, i, j, k) > 1;
        assert occupancy[i, j, k] > 1;
      }
    }

    /** `np.any(grid[slice_2d] at layer k)`: some grid cell under b's footprint on layer k is occupied. */
    function OccupiedUnder(b: Brick, k: int): (r: bool)
      reads this, occupancy
      requires Valid() && 0 <= k < worldDim
      ensures r <==> MeetsAtLayer(worldDim, bricks, b, k)
    {
      OccupiedUnderFootprint(worldDim, bricks, b, k);
      var (sx, sy) := Slice2d(b);
      exists i, j | 0 <= i < worldDim && 0 <= j < worldDim && sx.start <= i < sx.stop && sy.start <= j < sy.stop ::
        occupancy[i, j, k] != 0
    }

    /** brick_collides: the grid is occupied under b's footprint on b's own layer. */
    function BrickCollides(b: Brick): (r: bool)
      reads this, occupancy
      requires Valid() && Placeable(worldDim, b)
      ensures r <==> MeetsAtLayer(worldDim, bricks, b, b.z)
    {
      OccupiedUnder(b, b.z)
    }

    /** brick_floats: off the ground, and held neither from below nor, below the top layer, from above. */
    function BrickFloats(b: Brick): (r: bool)
      reads this, occupancy
      requires Valid() && Placeable(worldDim, b)
      ensures r <==> Floats(worldDim, bricks, b)
    {
      if b.z == 0 then false
      else if OccupiedUnder(b, b.z - 1) then false
      else if b.z != worldDim - 1 && OccupiedUnder(b, b.z + 1) then false
      else true
    }

    function HasFloatingBricks(): (r: bool)
      reads this, occupancy
      requires Valid()
      ensures r <==> AnyFloating(worldDim, bricks)
    {
      exists p | 0 <= p < |bricks| :: BrickFloats(bricks[p])
    }

    /** stability_scores, checked on the grid. */
    function StabilityScores(cat: Catalog, scorer: Gates.StabilityScorer): (r: Result<seq<real>>)
      reads this, occupancy
      requires Valid()
      ensures r == Gates.StabilityScores(cat, scorer, worldDim, bricks)
    {
      if HasCollisions() then Err(PreconditionError(CollidingBricks))
      else if HasOutOfBoundsBricks() then Err(PreconditionError(OutOfBoundsBricks))
      else
        var obj :- ToJson(cat);
        Ok(scorer(obj, worldDim))
    }

    function ConnectivityScores(scorer: Gates.ConnectivityScorer): (r: Result<seq<real>>)
      reads this, occupancy
      requires Valid()
      ensures r == Gates.ConnectivityScores(scorer, worldDim, bricks)
    {
      if HasCollisions() then Err(PreconditionError(CollidingBricks))
      else if HasOutOfBoundsBricks() then Err(PreconditionError(OutOfBoundsBricks))
      else Ok(scorer(bricks, worldDim))
    }

    /** is_stable, checked on the grid. */
    function IsStable(cat: Catalog, scorer: Gates.StabilityScorer): (r: Result<bool>)
      reads this, occupancy
      requires Valid()
      ensures r == Gates.IsStable(cat, scorer, worldDim, bricks)
    {
      if HasFloatingBricks() || HasCollisions() then Ok(false)
      else
        var s :- StabilityScores(cat, scorer);
        Gates.MaxBelowOne(s)
    }

    function IsConnected(scorer: Gates.ConnectivityScorer): (r: Result<bool>)
      reads this, occupancy
      requires Valid()
      ensures r == Gates.IsConnected(scorer, worldDim, bricks)
    {
      if HasFloatingBricks() || HasCollisions() then Ok(false)
      else
        var s :- ConnectivityScores(scorer);
        Gates.MaxBelowOne(s)
    }

    /** __eq__: two structures are equal when their brick lists are; the world side is not compared. */
    function Equals(other: BrickStructure): (r: bool)
      reads this, other
      ensures r <==> bricks == other.bricks
    {
      bricks == other.bricks
    }

    /** to_txt: decodes back to the brick list when no brick has a negative field. */
    function ToTxt(): (r: string)
      reads this
      ensures (forall p | 0 <= p < |bricks| :: NonNegative(bricks[p])) ==> BricksFromTxt(r) == Ok(bricks)
    {
      if forall p | 0 <= p < |bricks| :: NonNegative(bricks[p]) then
        TxtStructureRoundTrip(bricks);
        BricksToTxt(bricks)
      else BricksToTxt(bricks)
    }

    /** to_json: fails on a brick without a catalog id; otherwise decodes back to the brick list. */
    function ToJson(cat: Catalog): (r: Result<JsonObject>)
      reads this
      ensures r.Ok? <==> Gates.Scorable(cat, bricks)
      ensures r.Ok? && WellFormed(cat) ==> BricksFromJson(cat, r.value) == Ok(bricks)
    {
      if WellFormed(cat) && Gates.Scorable(cat, bricks) then
        JsonStructureRoundTrip(cat, bricks);
        BricksToJson(cat, bricks)
      else BricksToJson(cat, bricks)
    }

    /** to_ldr: fails on a brick without a part id; otherwise decodes back to the brick list. */
    function ToLdr(cat: Catalog): (r: Result<string>)
      reads this
      ensures r.Ok? <==> forall p | 0 <= p < |bricks| :: PartId(cat, bricks[p]).Some?
      ensures WellFormed(cat) && Gates.Scorable(cat, bricks) ==> r.Ok? && BricksFromLdr(cat, r.value) == Ok(bricks)
    {
      if WellFormed(cat) && Gates.Scorable(cat, bricks) then
        LdrStructureRoundTrip(cat, bricks);
        BricksToLdr(cat, bricks)
      else BricksToLdr(cat, bricks)
    }

    /**
     * The class methods from_txt, from_json and from_ldr, after decoding: a structure in
     * the default world, or IndexError when a brick cannot be placed in its grid.
     */
    static method Build(decoded: Result<seq<Brick>>) returns (r: Result<BrickStructure>)
      ensures decoded.Err? ==> r == Err(decoded.error)
      ensures decoded.Ok? && !AllPlaceable(DefaultWorldDim, decoded.value) ==> r == Err(IndexError)
      ensures decoded.Ok? && AllPlaceable(DefaultWorldDim, decoded.value) ==> r.Ok?
      ensures r.Ok? ==> fresh(r.value) && fresh(r.value.occupancy) && r.value.Valid()
      ensures r.Ok? ==> r.value.worldDim == DefaultWorldDim && r.value.bricks == decoded.value
    {
      if decoded.Err? {
        return Err(decoded.error);
      }
      var bs := decoded.value;
      if !forall p | 0 <= p < |bs| :: Placeable(DefaultWorldDim, bs[p]) {
        return Err(IndexError);
      }
      var s := new BrickStructure(bs, DefaultWorldDim);
      return Ok(s);
    }

    /** from_txt: decode the text, then build a structure in the default world. */
    static method FromTxt(s: string) returns (r: Result<BrickStructure>)
      ensures BricksFromTxt(s).Err? ==> r == Err(BricksFromTxt(s).error)
      ensures BricksFromTxt(s).Ok? && !AllPlaceable(DefaultWorldDim, BricksFromTxt(s).value) ==> r == Err(IndexError)
      ensures BricksFromTxt(s).Ok? && AllPlaceable(DefaultWorldDim, BricksFromTxt(s).value) ==> r.Ok?
      ensures r.Ok? ==> fresh(r.value) && fresh(r.value.occupancy) && r.value.Valid()
      ensures r.Ok? ==> r.value.worldDim == DefaultWorldDim && r.value.bricks == BricksFromTxt(s).value
    {
      r := Build(BricksFromTxt(s));
    }

    /** from_json: decode the digit-keyed records, then build a structure in the default world. */
    static method FromJson(cat: Catalog, obj: JsonObject) returns (r: Result<BrickStructure>)
      ensures BricksFromJson(cat, obj).Err? ==> r == Err(BricksFromJson(cat, obj).error)
      ensures BricksFromJson(cat, obj).Ok? && !AllPlaceable(DefaultWorldDim, BricksFromJson(cat, obj).value) ==> r == Err(IndexError)
      ensures BricksFromJson(cat, obj).Ok? && AllPlaceable(DefaultWorldDim, BricksFromJson(cat, obj).value) ==> r.Ok?
      ensures r.Ok? ==> fresh(r.value) && fresh(r.value.occupancy) && r.value.Valid()
      ensures r.Ok? ==> r.value.worldDim == DefaultWorldDim && r.value.bricks == BricksFromJson(cat, obj).value
    {
      r := Build(BricksFromJson(cat, obj));
    }

    /** from_ldr: decode the step pieces, then build a structure in the default world. */
    static method FromLdr(cat: Catalog, s: string) returns (r: Result<BrickStructure>)
      ensures BricksFromLdr(cat, s).Err? ==> r == Err(BricksFromLdr(cat, s).error)
      ensures BricksFromLdr(cat, s).Ok? && !AllPlaceable(DefaultWorldDim, BricksFromLdr(cat, s).value) ==> r == Err(IndexError)
      ensures BricksFromLdr(cat, s).Ok? && AllPlaceable(DefaultWorldDim, BricksFromLdr(cat, s).value) ==> r.Ok?
      ensures r.Ok? ==> fresh(r.value) && fresh(r.value.occupancy) && r.value.Valid()
      ensures r.Ok? ==> r.value.worldDim == DefaultWorldDim && r.value.bricks == BricksFromLdr(cat, s).value
    {
      r := Build(BricksFromLdr(cat, s));
    }
  }

  /** Equal structures in worlds of the same side have the same grid: __eq__ need not compare it. */
  lemma EqualStructuresShareGrid(a: BrickStructure, c: BrickStructure)
    requires a.Valid() && c.Valid() && a.worldDim == c.worldDim && a.Equals(c)
    ensures forall i, j, k | InWorld(a.worldDim, i, j, k) :: a.occupancy[i, j, k] == c.occupancy[i, j, k]
  {
  }
}
