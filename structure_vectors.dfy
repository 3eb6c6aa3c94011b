/**
 * The structure-level codec test vectors: two 2x6 bricks side by side on the ground,
 * written in each of the three formats, with the sample catalog.
 */
module StructureVectors {
  import opened Results
  import opened Strings
  import opened BrickLibrary
  import opened Bricks
  import opened BrickText
  import opened BrickJson
  import opened BrickLdraw
  import opened StructureCodecs
  import opened Grid
  import opened Structure

  /** Two 2x6 bricks at x = 0 and x = 2 on the ground. */
  const Pair: seq<Brick> := [Brick(2, 6, 0, 0, 0), Brick(2, 6, 2, 0, 0)]

  const PairTxt: string := "2x6 (0,0,0)\n2x6 (2,0,0)\n"

  const PairJson: JsonObject := [("1", BrickRecord(3, 0, 0, 0, 0)), ("2", BrickRecord(3, 2, 0, 0, 0))]

  /**
   * The test's placement line of a ground-level 2x6 brick whose LDraw x is xs, written
   * field by field: `1 115 {xs} 0 60.0 0 0 1 0 1 0 -1 0 0 2456.DAT` and a newline.
   */
  function GroundLineText(xs: string): string {
    "1" + " " + "115" + " " + xs + " " + "0" + " " + "60.0" + " " + "0 0 1 0 1 0 -1 0 0" + " " + "2456.DAT" + "\n"
  }

  /** The test's LDraw text: the line at x = 20.0, a step line, the line at x = 60.0, a step line. */
  const PairLdr: string := GroundLineText("20.0") + StepLine + (GroundLineText("60.0") + StepLine)

  lemma SmallNumerals()
    ensures IntStr(0) == "0" && IntStr(1) == "1" && IntStr(2) == "2" && IntStr(6) == "6"
    ensures FloatStr(20) == "20.0" && FloatStr(60) == "60.0"
  {
    assert NatStr(20) == NatStr(2) + [DigitChar(0)];
    assert NatStr(60) == NatStr(6) + [DigitChar(0)];
  }

  lemma PairToTxt()
    ensures BricksToTxt(Pair) == PairTxt
  {
    SmallNumerals();
    assert Pair[1..][1..] == [];
  }

  /** from_txt and to_txt on the test text. */
  lemma TxtVector()
    ensures BricksFromTxt(PairTxt) == Ok(Pair)
    ensures BricksToTxt(Pair) == PairTxt
  {
    PairToTxt();
    TxtStructureRoundTrip(Pair);
  }

  lemma PairToJson()
    ensures BricksToJson(Sample, Pair) == Ok(PairJson)
  {
    SampleWellFormed();
    SmallNumerals();
    var r := BricksToJson(Sample, Pair);
    assert r.Ok? && |r.value| == 2;
    assert r.value[0] == ("1", BrickRecord(3, 0, 0, 0, 0));
    assert r.value[1] == ("2", BrickRecord(3, 2, 0, 0, 0));
    assert r.value == [r.value[0], r.value[1]];
  }

  /** from_json and to_json on the test object. */
  lemma JsonVector()
    ensures BricksFromJson(Sample, PairJson) == Ok(Pair)
    ensures BricksToJson(Sample, Pair) == Ok(PairJson)
  {
    SampleWellFormed();
    PairToJson();
    JsonStructureRoundTrip(Sample, Pair);
  }

  /** The placement fields of a ground-level 2x6 brick, with the sample part. */
  lemma GroundFields(b: Brick, xs: string)
    requires b.h == 2 && b.w == 6 && b.y == 0 && b.z == 0
    requires xs == FloatStr(LdrX(b))
    ensures PlacementFields(b, "2456.DAT", DefaultBaseHeight)
      == ["1", "115", xs, "0", "60.0", "0 0 1 0 1 0 -1 0 0", "2456.DAT"]
  {
    SmallNumerals();
    assert LdrY(b, DefaultBaseHeight) == 0 && LdrZ(b) == 60 && Ori(b) == 0;
  }

  /** Joining seven fields puts one space between neighbours. */
  lemma JoinSeven(f: seq<string>)
    requires |f| == 7
    ensures JoinSpace(f) == f[0] + " " + f[1] + " " + f[2] + " " + f[3] + " " + f[4] + " " + f[5] + " " + f[6]
  {
    assert JoinSpace(f[6..]) == f[6];
    assert f[5..][1..] == f[6..];
    assert f[4..][1..] == f[5..];
    assert f[3..][1..] == f[4..];
    assert f[2..][1..] == f[3..];
    assert f[1..][1..] == f[2..];
    assert JoinSpace(f[5..]) == f[5] + " " + f[6];
    assert JoinSpace(f[4..]) == f[4] + " " + (f[5] + " " + f[6]);
    assert JoinSpace(f[3..]) == f[3] + " " + (f[4] + " " + (f[5] + " " + f[6]));
    assert JoinSpace(f[2..]) == f[2] + " " + (f[3] + " " + (f[4] + " " + (f[5] + " " + f[6])));
    assert JoinSpace(f[1..]) == f[1] + " " + (f[2] + " " + (f[3] + " " + (f[4] + " " + (f[5] + " " + f[6]))));
  }

  /** The placement line of a ground-level 2x6 brick, with the sample part. */
  lemma GroundLine(b: Brick, xs: string)
    requires b.h == 2 && b.w == 6 && b.y == 0 && b.z == 0
    requires xs == FloatStr(LdrX(b))
    ensures PlacementLine(b, "2456.DAT", DefaultBaseHeight) == GroundLineText(xs)
  {
    GroundFields(b, xs);
    JoinSeven(PlacementFields(b, "2456.DAT", DefaultBaseHeight));
  }

  lemma PairToLdr()
    ensures BricksToLdr(Sample, Pair) == Ok(PairLdr)
  {
    SamplePart(Pair[0]);
    SamplePart(Pair[1]);
    PairToLdrFor(Sample, Pair[0], Pair[1], "20.0", "60.0");
    assert Pair == [Pair[0], Pair[1]];
  }

  /** The sample catalog knows every 2x6 brick as part 2456.DAT. */
  lemma SamplePart(b: Brick)
    requires b.h == 2 && b.w == 6
    ensures BrickId(Sample, b) == Some(3) && PartId(Sample, b) == Some("2456.DAT")
  {
    SampleWellFormed();
  }

  /** The pair on the ground, with bricks and numbers as parameters so that nothing is unfolded eagerly. */
  lemma PairToLdrFor(cat: Catalog, a: Brick, c: Brick, xa: string, xc: string)
    requires a.h == 2 && a.w == 6 && a.y == 0 && a.z == 0 && a.x == 0
    requires c.h == 2 && c.w == 6 && c.y == 0 && c.z == 0 && c.x == 2
    requires PartId(cat, a) == Some("2456.DAT") && PartId(cat, c) == Some("2456.DAT")
    requires xa == "20.0" && xc == "60.0"
    ensures BricksToLdr(cat, [a, c]) == Ok(GroundLineText(xa) + StepLine + (GroundLineText(xc) + StepLine))
  {
    SmallNumerals();
    assert LdrX(a) == 20 && LdrX(c) == 60;
    GroundLine(a, xa);
    GroundLine(c, xc);
    LdrOfTwo(cat, [a, c]);
  }

  lemma LdrOfTwo(cat: Catalog, bs: seq<Brick>)
    requires |bs| == 2 && PartId(cat, bs[0]).Some? && PartId(cat, bs[1]).Some?
    ensures BricksToLdr(cat, bs) == Ok(ToLdr(cat, bs[0], DefaultBaseHeight).value + ToLdr(cat, bs[1], DefaultBaseHeight).value)
  {
    var tail := bs[1..];
    assert tail[0] == bs[1] && tail[1..] == [];
    LdrFirst(cat, bs);
    LdrFirst(cat, tail);
    var l1 := ToLdr(cat, bs[1], DefaultBaseHeight).value;
    assert l1 + [] == l1;
  }

  /** from_ldr and to_ldr on the test text. */
  lemma LdrVector()
    ensures BricksFromLdr(Sample, PairLdr) == Ok(Pair)
    ensures BricksToLdr(Sample, Pair) == Ok(PairLdr)
  {
    PairToLdr();
    LdrDecodesBack(Sample, Pair, PairLdr);
  }

  lemma LdrDecodesBack(cat: Catalog, bs: seq<Brick>, s: string)
    requires cat == Sample && bs == Pair && BricksToLdr(cat, bs) == Ok(s)
    ensures BricksFromLdr(cat, s) == Ok(bs)
  {
    SampleWellFormed();
    LdrStructureRoundTrip(cat, bs);
  }

  /** The single-brick test vector `6x2 (0,1,2)`: id 3 in orientation 1, area 12, and its slices. */
  lemma BrickVector(b: Brick)
    requires b == Brick(6, 2, 0, 1, 2)
    ensures BrickId(Sample, b) == Some(3) && Ori(b) == 1 && Area(b) == 12
    ensures Slice2d(b) == (Range(0, 6), Range(1, 3)) && Slice(b) == (Range(0, 6), Range(1, 3), 2)
  {
    SampleWellFormed();
  }

  /** The single-brick test vector in text: to_txt writes `6x2 (0,1,2)` and from_txt reads it back. */
  lemma BrickTxtVector(b: Brick, t: string)
    requires b == Brick(6, 2, 0, 1, 2) && t == "6x2 (0,1,2)\n"
    ensures ToTxt(b) == t && FromTxt(t) == Ok(b)
  {
    SmallNumerals();
    assert TxtBody(b) == TxtLine("6", "2", "0", "1", "2");
    TxtLineText(t);
    TxtRoundTrip(b);
  }

  lemma TxtLineText(t: string)
    requires t == "6x2 (0,1,2)\n"
    ensures TxtLine("6", "2", "0", "1", "2") + "\n" == t
  {
  }

  /** All three test texts decode to the same non-empty brick list. */
  lemma VectorsAgree()
    ensures BricksFromTxt(PairTxt) == BricksFromJson(Sample, PairJson) == BricksFromLdr(Sample, PairLdr)
    ensures BricksFromTxt(PairTxt) != Ok([])
  {
    TxtVector();
    JsonVector();
    LdrVector();
  }

  /** The facts the class-level test needs about the three test inputs. */
  lemma PairDecodes()
    ensures BricksFromTxt(PairTxt) == Ok(Pair) && BricksFromJson(Sample, PairJson) == Ok(Pair)
    ensures BricksFromLdr(Sample, PairLdr) == Ok(Pair)
    ensures |Pair| == 2 && AllPlaceable(DefaultWorldDim, Pair)
  {
    TxtVector();
    JsonVector();
    LdrVector();
    PairPlaceable(Pair);
  }

  lemma PairPlaceable(bs: seq<Brick>)
    requires bs == Pair
    ensures |bs| == 2 && AllPlaceable(DefaultWorldDim, bs)
  {
    assert Placeable(DefaultWorldDim, bs[0]) && Placeable(DefaultWorldDim, bs[1]);
  }

  /**
   * from_txt, from_json and from_ldr of inputs that decode to the same placeable list build
   * structures that are equal to each other, and unequal to the empty one when the list is not empty.
   */
  method BuildAgree(st: string, sj: JsonObject, sl: string, bs: seq<Brick>)
    returns (t: BrickStructure, j: BrickStructure, l: BrickStructure, e: BrickStructure)
    requires BricksFromTxt(st) == Ok(bs) && BricksFromJson(Sample, sj) == Ok(bs) && BricksFromLdr(Sample, sl) == Ok(bs)
    requires AllPlaceable(DefaultWorldDim, bs)
    ensures t.bricks == bs && t.worldDim == DefaultWorldDim && e.bricks == []
    ensures t.Equals(j) && t.Equals(l) && (t.Equals(e) <==> bs == [])
  {
    var rt := BrickStructure.FromTxt(st);
    var rj := BrickStructure.FromJson(Sample, sj);
    var rl := BrickStructure.FromLdr(Sample, sl);
    t, j, l := rt.value, rj.value, rl.value;
    e := new BrickStructure([], DefaultWorldDim);
  }

  /**
   * The class-level test: from_txt, from_json and from_ldr of the three test inputs build
   * structures of two bricks that are equal to each other and not to the empty structure.
   */
  method BuiltVectorsAgree() returns (t: BrickStructure, j: BrickStructure, l: BrickStructure, e: BrickStructure)
    ensures |t.bricks| == 2 && t.worldDim == DefaultWorldDim && e.bricks == []
    ensures t.Equals(j) && t.Equals(l) && !t.Equals(e)
  {
    PairDecodes();
    t, j, l, e := BuildAgree(PairTxt, PairJson, PairLdr, Pair);
  }
}
