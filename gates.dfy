/**
 * The stability and connectivity gates of a brick structure, on the brick list itself.
 * The scorers live outside the modelled code: each is a function parameter that maps
 * what the structure hands it (its JSON object, or its brick list, and the world side)
 * to one score per brick. A structure may only be scored when it has no colliding and no
 * out-of-bounds bricks; a structure with a floating or colliding brick is unstable and
 * unconnected without being scored; otherwise it is stable (connected) when every score
 * is below 1.
 */
module Gates {
  import opened Results
  import opened BrickLibrary
  import opened Bricks
  import opened Grid
  import opened StructureCodecs

  /** stability_score(to_json(), brick_library, world dimension): one score per brick. */
  type StabilityScorer = (JsonObject, nat) -> seq<real>

  /** connectivity_score(structure): one score per brick. */
  type ConnectivityScorer = (seq<Brick>, nat) -> seq<real>

  /** The largest score; the maximum of an empty array does not exist. */
  function MaxOf(s: seq<real>): (m: real)
    requires s != []
    ensures m in s && forall x | x in s :: x <= m
  {
    if |s| == 1 then s[0]
    else
      var m := MaxOf(s[1..]);
      assert forall x | x in s :: x == s[0] || x in s[1..];
      if s[0] < m then m else s[0]
  }

  /** `scores.max() < 1`, which raises on an empty array. */
  function MaxBelowOne(s: seq<real>): (r: Result<bool>)
    ensures r.Err? <==> s == []
    ensures r.Err? ==> r.error == EmptyReduction
    ensures r.Ok? ==> (r.value <==> forall x | x in s :: x < 1.0)
  {
    if s == [] then Err(EmptyReduction) else Ok(MaxOf(s) < 1.0)
  }

  /** The checks made before any scorer runs: collisions first, then bounds. */
  function ScoreGate(D: int, bs: seq<Brick>): (r: Outcome)
    ensures r == Pass <==> !Colliding(D, bs) && !AnyOutOfBounds(D, bs)
    ensures Colliding(D, bs) ==> r == Fail(PreconditionError(CollidingBricks))
    ensures !Colliding(D, bs) && AnyOutOfBounds(D, bs) ==> r == Fail(PreconditionError(OutOfBoundsBricks))
  {
    if Colliding(D, bs) then Fail(PreconditionError(CollidingBricks))
    else if AnyOutOfBounds(D, bs) then Fail(PreconditionError(OutOfBoundsBricks))
    else Pass
  }

  /** stability_scores: the gate, then the scorer on the structure's JSON object. */
  function StabilityScores(cat: Catalog, scorer: StabilityScorer, D: nat, bs: seq<Brick>): Result<seq<real>> {
    match ScoreGate(D, bs)
    case Fail(e) => Err(e)
    case Pass =>
      var obj :- BricksToJson(cat, bs);
      Ok(scorer(obj, D))
  }

  /** connectivity_scores: the gate, then the scorer on the structure. */
  function ConnectivityScores(scorer: ConnectivityScorer, D: nat, bs: seq<Brick>): Result<seq<real>> {
    match ScoreGate(D, bs)
    case Fail(e) => Err(e)
    case Pass => Ok(scorer(bs, D))
  }

  /** What is_stable and is_connected share: a floating or colliding structure fails unscored. */
  function Verdict(D: nat, bs: seq<Brick>, scores: Result<seq<real>>): Result<bool> {
    if AnyFloating(D, bs) || Colliding(D, bs) then Ok(false)
    else
      var s :- scores;
      MaxBelowOne(s)
  }

  function IsStable(cat: Catalog, scorer: StabilityScorer, D: nat, bs: seq<Brick>): Result<bool> {
    Verdict(D, bs, StabilityScores(cat, scorer, D, bs))
  }

  function IsConnected(scorer: ConnectivityScorer, D: nat, bs: seq<Brick>): Result<bool> {
    Verdict(D, bs, ConnectivityScores(scorer, D, bs))
  }

  /** The JSON object the stability scorer sees, when every brick has a catalog id. */
  predicate Scorable(cat: Catalog, bs: seq<Brick>) {
    forall p | 0 <= p < |bs| :: BrickId(cat, bs[p]).Some?
  }

  /**
   * A structure is stable exactly when nothing floats, nothing collides, everything is in
   * bounds, every brick has a catalog id, and the scorer gives a non-empty list of scores
   * all below 1.
   */
  lemma StableIff(cat: Catalog, scorer: StabilityScorer, D: nat, bs: seq<Brick>)
    ensures IsStable(cat, scorer, D, bs) == Ok(true) <==>
      !AnyFloating(D, bs) && !Colliding(D, bs) && !AnyOutOfBounds(D, bs) && Scorable(cat, bs)
      && var s := scorer(BricksToJson(cat, bs).value, D); s != [] && forall x | x in s :: x < 1.0
  {
  }

  /**
   * The stability check raises exactly when the structure is neither floating nor colliding
   * and then has an out-of-bounds brick, a brick without a catalog id, or no scores; the
   * error says which.
   */
  lemma StableErrors(cat: Catalog, scorer: StabilityScorer, D: nat, bs: seq<Brick>)
    ensures IsStable(cat, scorer, D, bs).Err? <==>
      !AnyFloating(D, bs) && !Colliding(D, bs)
      && (AnyOutOfBounds(D, bs) || !Scorable(cat, bs) || scorer(BricksToJson(cat, bs).value, D) == [])
    ensures !AnyFloating(D, bs) && !Colliding(D, bs) && AnyOutOfBounds(D, bs) ==>
      IsStable(cat, scorer, D, bs) == Err(PreconditionError(OutOfBoundsBricks))
    ensures !AnyFloating(D, bs) && !Colliding(D, bs) && !AnyOutOfBounds(D, bs) && !Scorable(cat, bs) ==>
      IsStable(cat, scorer, D, bs) == Err(MissingKey)
  {
  }

  /** A structure is connected exactly when nothing floats or collides, everything is in bounds and all scores are below 1. */
  lemma ConnectedIff(scorer: ConnectivityScorer, D: nat, bs: seq<Brick>)
    ensures IsConnected(scorer, D, bs) == Ok(true) <==>
      !AnyFloating(D, bs) && !Colliding(D, bs) && !AnyOutOfBounds(D, bs)
      && scorer(bs, D) != [] && forall x | x in scorer(bs, D) :: x < 1.0
    ensures IsConnected(scorer, D, bs).Err? <==>
      !AnyFloating(D, bs) && !Colliding(D, bs) && (AnyOutOfBounds(D, bs) || scorer(bs, D) == [])
  {
  }

  /** Floating or colliding structures are neither stable nor connected, whatever the scorers say. */
  lemma GatedUnscored(cat: Catalog, stability: StabilityScorer, connectivity: ConnectivityScorer, D: nat, bs: seq<Brick>)
    requires AnyFloating(D, bs) || Colliding(D, bs)
    ensures IsStable(cat, stability, D, bs) == Ok(false)
    ensures IsConnected(connectivity, D, bs) == Ok(false)
  {
  }

  /**
   * The stability test vector with a brick on layer 1 beside a ground brick: unstable for
   * any scorer. A lone 2x6 brick at x = 19 of a 20-wide world is refused by both scorers.
   */
  lemma GateVectors(stability: StabilityScorer, connectivity: ConnectivityScorer)
    ensures IsStable(Sample, stability, 20, [Brick(2, 6, 0, 0, 0), Brick(2, 6, 2, 0, 1)]) == Ok(false)
    ensures IsStable(Sample, stability, 20, [Brick(2, 6, 19, 0, 0)]) == Err(PreconditionError(OutOfBoundsBricks))
    ensures IsConnected(connectivity, 20, [Brick(2, 6, 19, 0, 0)]) == Err(PreconditionError(OutOfBoundsBricks))
  {
    FloatingVectors();
    var bs := [Brick(2, 6, 19, 0, 0)];
    assert !InBounds(20, bs[0]);
    assert !Floats(20, bs, bs[0]);
  }
}
