/** The JSON record of a brick: `{brick_id, x, y, z, ori}`; the dimensions come from the catalog. */
module BrickJson {
  import opened Results
  import opened BrickLibrary
  import opened Bricks

  datatype BrickRecord = BrickRecord(brickId: int, x: int, y: int, z: int, ori: int)

  /** Brick.to_json: fails when the catalog does not know the brick's dimensions. */
  function ToJson(cat: Catalog, b: Brick): (r: Result<BrickRecord>)
    ensures r.Ok? <==> BrickId(cat, b).Some?
    ensures r.Err? ==> r.error == MissingKey
  {
    match BrickId(cat, b)
    case None => Err(MissingKey)
    case Some(id) => Ok(BrickRecord(id, b.x, b.y, b.z, Ori(b)))
  }

  /** Brick.from_json: dimensions of the brick id, swapped when ori is 1. */
  function FromJson(cat: Catalog, rec: BrickRecord): (r: Result<Brick>)
    ensures r.Ok? <==> IdToDims(cat, rec.brickId).Some?
    ensures r.Err? ==> r.error == MissingKey
  {
    match IdToDims(cat, rec.brickId)
    case None => Err(MissingKey)
    case Some((h, w)) =>
      var (h', w') := if rec.ori == 1 then (w, h) else (h, w);
      Ok(Brick(h', w', rec.x, rec.y, rec.z))
  }

  /** from_json(to_json(b)) == b for every brick the catalog knows. */
  lemma JsonRoundTrip(cat: Catalog, b: Brick)
    requires WellFormed(cat) && BrickId(cat, b).Some?
    ensures FromJson(cat, ToJson(cat, b).value) == Ok(b)
  {
    IdToDimsOfDimsToId(cat, b.h, b.w);
  }

  /**
   * The other direction: re-encoding a decoded record gives the record back with its
   * orientation normalised; a record whose ori is 0 or 1 comes back unchanged unless it
   * names a square brick with ori 1.
   */
  lemma JsonNormalises(cat: Catalog, rec: BrickRecord)
    requires WellFormed(cat) && FromJson(cat, rec).Ok?
    ensures var b := FromJson(cat, rec).value;
      ToJson(cat, b) == Ok(rec.(ori := Ori(b)))
      && ((rec.ori == 0 || rec.ori == 1) && b.h != b.w ==> Ori(b) == rec.ori)
  {
    var i :| 0 <= i < |cat| && cat[i].id == rec.brickId && IdToDims(cat, rec.brickId).value == (cat[i].h, cat[i].w);
    LookupEntry(cat, i);
  }

  /** The test vector: `6x2 (0,1,2)` is brick id 3 in orientation 1. */
  lemma SampleRecord()
    ensures FromJson(Sample, BrickRecord(3, 0, 1, 2, 1)) == Ok(Brick(6, 2, 0, 1, 2))
    ensures ToJson(Sample, Brick(6, 2, 0, 1, 2)) == Ok(BrickRecord(3, 0, 1, 2, 1))
  {
    SampleWellFormed();
  }
}
