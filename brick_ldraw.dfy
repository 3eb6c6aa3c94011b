/**
 * The LDraw form of a brick (line type 1 of the LDraw File Format 1.0.2, followed by
 * the `0 STEP` meta-command). The coordinates to_ldr writes are exact integers: a grid
 * cell is 20 LDraw units wide and 24 high, and the LDraw y axis points down. Tokens are
 * read as exact decimals, not rounded to double precision as Python's float() does.
 */
module BrickLdraw {
  import opened Results
  import opened Strings
  import opened BrickLibrary
  import opened Bricks

  /** The base_height to_ldr uses when none is given. */
  const DefaultBaseHeight: int := 0

  /** The separator written after every placement line. */
  const StepLine: string := "0 STEP\n"

  /** The two legal rotation matrices, as the code writes and compares them. */
  function MatrixText(ori: int): string {
    if ori == 0 then "0 0 1 0 1 0 -1 0 0" else "-1 0 0 0 1 0 0 0 -1"
  }

  function MatrixTokens(ori: int): seq<string> {
    if ori == 0 then ["0", "0", "1", "0", "1", "0", "-1", "0", "0"]
    else ["-1", "0", "0", "0", "1", "0", "0", "0", "-1"]
  }

  lemma MatrixJoin0()
    ensures JoinSpace(MatrixTokens(0)) == MatrixText(0)
  {
    var t := MatrixTokens(0);
    var s8 := JoinSpace(t[8..]);
    assert s8 == "0";
    var s7 := JoinSpace(t[7..]);
    assert s7 == "0" + " " + s8;
    var s6 := JoinSpace(t[6..]);
    assert s6 == "-1" + " " + s7;
    var s5 := JoinSpace(t[5..]);
    assert s5 == "0" + " " + s6;
    var s4 := JoinSpace(t[4..]);
    assert s4 == "1" + " " + s5;
    var s3 := JoinSpace(t[3..]);
    assert s3 == "0" + " " + s4;
    var s2 := JoinSpace(t[2..]);
    assert s2 == "1" + " " + s3;
    var s1 := JoinSpace(t[1..]);
    assert s1 == "0" + " " + s2;
    assert JoinSpace(t) == "0" + " " + s1;
  }

  lemma MatrixJoin1()
    ensures JoinSpace(MatrixTokens(1)) == MatrixText(1)
  {
    var t := MatrixTokens(1);
    var s8 := JoinSpace(t[8..]);
    assert s8 == "-1";
    var s7 := JoinSpace(t[7..]);
    assert s7 == "0" + " " + s8;
    var s6 := JoinSpace(t[6..]);
    assert s6 == "0" + " " + s7;
    var s5 := JoinSpace(t[5..]);
    assert s5 == "0" + " " + s6;
    var s4 := JoinSpace(t[4..]);
    assert s4 == "1" + " " + s5;
    var s3 := JoinSpace(t[3..]);
    assert s3 == "0" + " " + s4;
    var s2 := JoinSpace(t[2..]);
    assert s2 == "0" + " " + s3;
    var s1 := JoinSpace(t[1..]);
    assert s1 == "0" + " " + s2;
    assert JoinSpace(t) == "-1" + " " + s1;
  }

  lemma MatrixTokensValid(ori: int)
    ensures forall k | 0 <= k < |MatrixTokens(ori)| :: IsToken(MatrixTokens(ori)[k]) && 'S' !in MatrixTokens(ori)[k]
  {
    var t := MatrixTokens(ori);
    assert forall k | 0 <= k < |t| :: t[k] in {"0", "1", "-1"};
    assert IsToken("0") && IsToken("1") && IsToken("-1");
  }

  lemma MatrixLengths()
    ensures |MatrixText(0)| == 18 && |MatrixText(1)| == 19
  {
  }

  lemma MatrixTextTokens(ori: int)
    ensures MatrixText(ori) == JoinSpace(MatrixTokens(ori))
    ensures forall k | 0 <= k < |MatrixTokens(ori)| :: IsToken(MatrixTokens(ori)[k]) && 'S' !in MatrixTokens(ori)[k]
    ensures 'S' !in MatrixText(ori)
    ensures |MatrixText(0)| == 18 && |MatrixText(1)| == 19
  {
    if ori == 0 { MatrixJoin0(); } else { MatrixJoin1(); }
    MatrixTokensValid(ori);
    MatrixLengths();
    JoinSpaceFree(MatrixTokens(ori), 'S');
  }

  /** The LDraw x coordinate, (x + h * 0.5) * 20, which is always an integer. */
  function LdrX(b: Brick): (v: int)
    ensures v as real == (b.x as real + b.h as real * 0.5) * 20.0
  {
    20 * b.x + 10 * b.h
  }

  /** The LDraw z coordinate, (y + w * 0.5) * 20. */
  function LdrZ(b: Brick): (v: int)
    ensures v as real == (b.y as real + b.w as real * 0.5) * 20.0
  {
    20 * b.y + 10 * b.w
  }

  /** The LDraw y coordinate, (z + base) * -24. */
  function LdrY(b: Brick, base: int): int {
    (b.z + base) * -24
  }

  /** The fields of `1 115 {x} {y} {z} {matrix} {part}`: x and z print as floats, y as an int. */
  function PlacementFields(b: Brick, part: string, base: int): seq<string> {
    ["1", "115", FloatStr(LdrX(b)), IntStr(LdrY(b, base)), FloatStr(LdrZ(b)), MatrixText(Ori(b)), part]
  }

  function PlacementLine(b: Brick, part: string, base: int): string {
    JoinSpace(PlacementFields(b, part, base)) + "\n"
  }

  /** Brick.to_ldr(base_height): the placement line and the step line; fails for unknown dimensions. */
  function ToLdr(cat: Catalog, b: Brick, base: int): (r: Result<string>)
    ensures r.Ok? <==> PartId(cat, b).Some?
    ensures r.Ok? ==> r.value == PlacementLine(b, PartId(cat, b).value, base) + StepLine
  {
    match PartId(cat, b)
    case None => Err(MissingKey)
    case Some(p) => Ok(PlacementLine(b, p, base) + StepLine)
  }

  /** The three coordinate words, each read by float(). */
  function Coordinates(ts: seq<string>): (r: Result<(real, real, real)>)
    requires |ts| >= 5
    ensures r.Ok? <==> ParseFloat(ts[2]).Some? && ParseFloat(ts[3]).Some? && ParseFloat(ts[4]).Some?
    ensures r.Ok? ==> r.value == (ParseFloat(ts[2]).value, ParseFloat(ts[3]).value, ParseFloat(ts[4]).value)
    ensures r.Err? ==> r.error == FormatError
  {
    var x0 :- OrFail(ParseFloat(ts[2]), FormatError);
    var y0 :- OrFail(ParseFloat(ts[3]), FormatError);
    var z0 :- OrFail(ParseFloat(ts[4]), FormatError);
    Ok((x0, y0, z0))
  }

  /** The orientation a rotation matrix stands for; any other matrix is rejected. */
  function Orientation(m: string): (r: Result<int>)
    ensures r.Ok? <==> m == MatrixText(0) || m == MatrixText(1)
    ensures r.Ok? ==> r.value in {0, 1} && MatrixText(r.value) == m
    ensures r.Err? ==> r.error == FormatError
  {
    if m == MatrixText(0) then Ok(0)
    else if m == MatrixText(1) then Ok(1)
    else Err(FormatError)
  }

  /** The footprint of a part in the given orientation; fails for unknown parts. */
  function Dimensions(cat: Catalog, part: string, ori: int): (r: Result<(int, int)>)
    ensures r.Ok? <==> PartToId(cat, part).Some? && IdToDims(cat, PartToId(cat, part).value).Some?
    ensures r.Err? ==> r.error == MissingKey
  {
    match PartToId(cat, part)
    case None => Err(MissingKey)
    case Some(id) =>
      match IdToDims(cat, id)
      case None => Err(MissingKey)
      case Some((h, w)) => Ok(if ori == 1 then (w, h) else (h, w))
  }

  /** The brick of footprint dims whose footprint centre and top are at the LDraw point c. */
  function Place(dims: (int, int), c: (real, real, real)): Brick {
    var (h, w) := dims;
    var (x0, y0, z0) := c;
    Brick(h, w, Trunc(x0 / 20.0 - h as real * 0.5), Trunc(z0 / 20.0 - w as real * 0.5), Trunc(-y0 / 24.0))
  }

  /** The brick a list of placement words describes. */
  function DecodePlacement(cat: Catalog, ts: seq<string>): (r: Result<Brick>)
    ensures r.Err? ==> r.error == FormatError || r.error == MissingKey
  {
    if |ts| < 6 || ts[0] != "1" then Err(FormatError)
    else
      var c :- Coordinates(ts);
      var ori :- Orientation(JoinSpace(ts[5..|ts| - 1]));
      var dims :- Dimensions(cat, ts[|ts| - 1], ori);
      Ok(Place(dims, c))
  }

  /**
   * Brick.from_ldr: the words must be `1 _ x y z matrix... part` (at least six of them);
   * the matrix selects the orientation, the part the dimensions, and each coordinate is
   * recovered by truncation toward zero.
   */
  function FromLdr(cat: Catalog, s: string): (r: Result<Brick>)
    ensures r.Err? ==> r.error == FormatError || r.error == MissingKey
  {
    DecodePlacement(cat, Words(s))
  }

  function PlacementTokens(b: Brick, part: string, base: int): seq<string> {
    ["1", "115", FloatStr(LdrX(b)), IntStr(LdrY(b, base)), FloatStr(LdrZ(b))] + MatrixTokens(Ori(b)) + [part]
  }

  lemma FloatStrToken(n: int)
    ensures IsToken(FloatStr(n)) && 'S' !in FloatStr(n)
  {
    IntStrChars(n);
  }

  /** Writing the matrix as one field is the same as writing its nine entries as fields. */
  lemma PlacementJoin(b: Brick, part: string, base: int)
    ensures JoinSpace(PlacementFields(b, part, base)) == JoinSpace(PlacementTokens(b, part, base))
  {
    var o := Ori(b);
    var a := ["1", "115", FloatStr(LdrX(b)), IntStr(LdrY(b, base)), FloatStr(LdrZ(b))];
    var mt := MatrixTokens(o);
    assert MatrixText(o) == JoinSpace(mt) by { MatrixTextTokens(o); }
    assert PlacementFields(b, part, base) == (a + [MatrixText(o)]) + [part];
    JoinSpaceAppend(a + [MatrixText(o)], [part]);
    JoinSpaceAppend(a, [MatrixText(o)]);
    JoinSpaceAppend(a, mt);
    JoinSpaceAppend(a + mt, [part]);
    assert (a + mt) + [part] == PlacementTokens(b, part, base);
  }

  lemma PlacementTokensValid(b: Brick, part: string, base: int)
    requires IsToken(part)
    ensures forall k | 0 <= k < |PlacementTokens(b, part, base)| :: IsToken(PlacementTokens(b, part, base)[k])
  {
    FloatStrToken(LdrX(b));
    FloatStrToken(LdrZ(b));
    IntStrChars(LdrY(b, base));
    MatrixTokensValid(Ori(b));
    LeadTokens(FloatStr(LdrX(b)), IntStr(LdrY(b, base)), FloatStr(LdrZ(b)), MatrixTokens(Ori(b)), part,
      PlacementTokens(b, part, base));
  }

  /** Placement words built from tokens are tokens. */
  lemma LeadTokens(x: string, y: string, z: string, mt: seq<string>, part: string, ts: seq<string>)
    requires IsToken(x) && IsToken(y) && IsToken(z) && IsToken(part)
    requires forall k | 0 <= k < |mt| :: IsToken(mt[k])
    requires ts == ["1", "115", x, y, z] + mt + [part]
    ensures forall k | 0 <= k < |ts| :: IsToken(ts[k])
  {
    assert IsToken("1") && IsToken("115");
    forall k | 0 <= k < |ts| ensures IsToken(ts[k]) {
      if 5 <= k < 5 + |mt| { assert ts[k] == mt[k - 5]; }
    }
  }

  /** The words of a placement line are its five leading fields, the nine matrix entries and the part. */
  lemma PlacementWords(b: Brick, part: string, base: int, rest: string)
    requires IsToken(part)
    ensures Words(PlacementLine(b, part, base) + rest) == PlacementTokens(b, part, base) + Words(rest)
  {
    var ts := PlacementTokens(b, part, base);
    PlacementJoin(b, part, base);
    PlacementTokensValid(b, part, base);
    assert PlacementLine(b, part, base) + rest == JoinSpace(ts) + ("\n" + rest);
    WordsJoin(ts, "\n" + rest);
    assert Words("\n" + rest) == Words(rest) by { assert ("\n" + rest)[1..] == rest; }
  }

  lemma PlacementLineWords(b: Brick, part: string, base: int)
    requires IsToken(part)
    ensures Words(PlacementLine(b, part, base)) == PlacementTokens(b, part, base)
  {
    var line := PlacementLine(b, part, base);
    PlacementWords(b, part, base, []);
    assert line + [] == line;
  }

  /** No field of a placement line holds an `S`. */
  lemma FieldsNoStep(fs: seq<string>, x: string, y: string, z: string, m: string, part: string)
    requires 'S' !in x && 'S' !in y && 'S' !in z && 'S' !in m && 'S' !in part
    requires fs == ["1", "115", x, y, z, m, part]
    ensures forall k | 0 <= k < |fs| :: 'S' !in fs[k]
  {
  }

  /** Joining fields of which the first is `1` gives a text that starts with `1`. */
  lemma JoinStartsWithOne(fs: seq<string>)
    requires |fs| >= 2 && fs[0] == "1"
    ensures JoinSpace(fs)[0] == '1'
  {
    assert JoinSpace(fs) == fs[0] + " " + JoinSpace(fs[1..]);
  }

  /** The shape of a placement line l, stated without unfolding it. */
  lemma PlacementLineIs(b: Brick, part: string, base: int, l: string)
    requires IsPartName(part) && l == PlacementLine(b, part, base)
    ensures 'S' !in l && l != [] && !IsSpace(l[0])
  {
    PlacementLineShape(b, part, base);
  }

  /** A placement line has no `S`, so it never holds a `0 STEP` marker, and starts with the line type `1`. */
  lemma PlacementLineShape(b: Brick, part: string, base: int)
    requires IsPartName(part)
    ensures 'S' !in PlacementLine(b, part, base)
    ensures PlacementLine(b, part, base)[0] == '1'
  {
    var fs := PlacementFields(b, part, base);
    MatrixTextTokens(Ori(b));
    IntStrAvoids(LdrY(b, base), 'S');
    FloatStrToken(LdrX(b));
    FloatStrToken(LdrZ(b));
    FieldsNoStep(fs, FloatStr(LdrX(b)), IntStr(LdrY(b, base)), FloatStr(LdrZ(b)), MatrixText(Ori(b)), part);
    JoinSpaceFree(fs, 'S');
    JoinStartsWithOne(fs);
  }

  /** The decoded fields of a placement line: LDraw coordinates, matrix and part. */
  lemma PlacementFieldsParse(b: Brick, part: string, base: int)
    requires IsToken(part)
    ensures var ts := PlacementTokens(b, part, base);
      |ts| == 15 && ts[0] == "1"
      && ParseFloat(ts[2]) == Some(LdrX(b) as real)
      && ParseFloat(ts[3]) == Some(LdrY(b, base) as real)
      && ParseFloat(ts[4]) == Some(LdrZ(b) as real)
      && JoinSpace(ts[5..|ts| - 1]) == MatrixText(Ori(b))
      && ts[|ts| - 1] == part
  {
    ParseFloatIntStr(LdrX(b));
    ParseFloatIntStr(LdrY(b, base));
    ParseFloatIntStr(LdrZ(b));
    MatrixTextTokens(Ori(b));
    TokensShape(FloatStr(LdrX(b)), IntStr(LdrY(b, base)), FloatStr(LdrZ(b)), MatrixTokens(Ori(b)), part,
      PlacementTokens(b, part, base));
  }

  /** Where each piece sits in a list of placement words. */
  lemma TokensShape(x: string, y: string, z: string, mt: seq<string>, part: string, ts: seq<string>)
    requires |mt| == 9 && ts == ["1", "115", x, y, z] + mt + [part]
    ensures |ts| == 15 && ts[0] == "1" && ts[2] == x && ts[3] == y && ts[4] == z
    ensures ts[5..|ts| - 1] == mt && ts[|ts| - 1] == part
  {
  }

  /** The inverse coordinate transform is exact on what to_ldr writes. */
  lemma CoordinatesBack(b: Brick, base: int)
    ensures Trunc(LdrX(b) as real / 20.0 - b.h as real * 0.5) == b.x
    ensures Trunc(LdrZ(b) as real / 20.0 - b.w as real * 0.5) == b.y
    ensures Trunc(-(LdrY(b, base) as real) / 24.0) == b.z + base
  {
    assert LdrX(b) as real / 20.0 - b.h as real * 0.5 == b.x as real;
    assert LdrZ(b) as real / 20.0 - b.w as real * 0.5 == b.y as real;
    assert -(LdrY(b, base) as real) / 24.0 == (b.z + base) as real;
    TruncInt(b.x);
    TruncInt(b.y);
    TruncInt(b.z + base);
  }

  /** Placing a brick's footprint at the LDraw point to_ldr computes gives the brick back. */
  lemma PlaceBack(b: Brick, base: int)
    ensures Place((b.h, b.w), (LdrX(b) as real, LdrY(b, base) as real, LdrZ(b) as real)) == b.(z := b.z + base)
  {
    CoordinatesBack(b, base);
  }

  /** A word list whose pieces decode decodes to the brick they describe. */
  lemma DecodePlacementOf(cat: Catalog, ts: seq<string>, x0: real, y0: real, z0: real, ori: int, h: int, w: int)
    requires |ts| >= 6 && ts[0] == "1"
    requires Coordinates(ts) == Ok((x0, y0, z0))
    requires Orientation(JoinSpace(ts[5..|ts| - 1])) == Ok(ori)
    requires Dimensions(cat, ts[|ts| - 1], ori) == Ok((h, w))
    ensures DecodePlacement(cat, ts) == Ok(Place((h, w), (x0, y0, z0)))
  {
  }

  /** The words to_ldr writes for a known brick decode to that brick, lifted by base layers. */
  lemma DecodePlacementTokens(cat: Catalog, b: Brick, base: int)
    requires WellFormed(cat) && BrickId(cat, b).Some?
    ensures PartId(cat, b).Some?
    ensures DecodePlacement(cat, PlacementTokens(b, PartId(cat, b).value, base)) == Ok(b.(z := b.z + base))
  {
    KnownDims(cat, b.h, b.w);
    var part := PartId(cat, b).value;
    var ts := PlacementTokens(b, part, base);
    var x0, y0, z0 := LdrX(b) as real, LdrY(b, base) as real, LdrZ(b) as real;
    PlacementFieldsParse(b, part, base);
    assert Coordinates(ts) == Ok((x0, y0, z0));
    MatrixTextTokens(0);
    assert Orientation(JoinSpace(ts[5..|ts| - 1])) == Ok(Ori(b));
    assert Dimensions(cat, part, Ori(b)) == Ok((b.h, b.w));
    DecodePlacementOf(cat, ts, x0, y0, z0, Ori(b), b.h, b.w);
    PlaceBack(b, base);
  }

  /**
   * The placement round trip: parsing the placement line to_ldr writes gives the brick
   * back, lifted by base layers.
   */
  lemma LdrRoundTrip(cat: Catalog, b: Brick, base: int)
    requires WellFormed(cat) && BrickId(cat, b).Some?
    ensures PartId(cat, b).Some?
    ensures FromLdr(cat, PlacementLine(b, PartId(cat, b).value, base)) == Ok(b.(z := b.z + base))
  {
    KnownDims(cat, b.h, b.w);
    var part := PartId(cat, b).value;
    PlacementLineWords(b, part, base);
    DecodePlacementTokens(cat, b, base);
  }

  /** Leading whitespace, such as the newline ending the previous step line, does not disturb the decoder. */
  lemma LdrRoundTripAfterSpace(cat: Catalog, b: Brick, base: int, pre: string)
    requires WellFormed(cat) && BrickId(cat, b).Some?
    requires AllSpaces(pre)
    ensures PartId(cat, b).Some?
    ensures FromLdr(cat, pre + PlacementLine(b, PartId(cat, b).value, base)) == Ok(b.(z := b.z + base))
  {
    LdrRoundTrip(cat, b, base);
    WordsSpaces(pre, PlacementLine(b, PartId(cat, b).value, base));
  }

  /** At the default base height the decoder gives the very brick back. */
  lemma LdrRoundTripDefault(cat: Catalog, b: Brick, pre: string, s: string)
    requires WellFormed(cat) && BrickId(cat, b).Some?
    requires AllSpaces(pre)
    requires PartId(cat, b).Some? && s == pre + PlacementLine(b, PartId(cat, b).value, DefaultBaseHeight)
    ensures FromLdr(cat, s) == Ok(b)
  {
    LdrRoundTripAfterSpace(cat, b, DefaultBaseHeight, pre);
    DefaultLiftsNothing(b);
  }

  lemma DefaultLiftsNothing(b: Brick)
    ensures b.(z := b.z + DefaultBaseHeight) == b
  {
  }

  /** Words("0 STEP\n") == ["0", "STEP"]. */
  lemma StepWords()
    ensures Words(StepLine) == ["0", "STEP"]
  {
    ZeroIsToken("0");
    StepIsToken("STEP");
    assert StepLine == "0" + " " + "STEP" + "\n";
    TwoWords("0", "STEP", StepLine);
  }

  /** The words of two tokens joined by a space and ended by a newline are those two tokens. */
  lemma TwoWords(a: string, b: string, s: string)
    requires IsToken(a) && IsToken(b) && s == a + " " + b + "\n"
    ensures Words(s) == [a, b]
  {
    var r := b + "\n";
    var q := " " + r;
    assert s == a + q;
    LastWord(b, r);
    WordsSpaceFirst(r);
    SpaceFirst(q, r);
    WordsToken(a, q);
  }

  lemma SpaceFirst(q: string, r: string)
    requires q == " " + r
    ensures IsSpace(q[0])
  {
  }

  /** A token ended by a newline is one word. */
  lemma LastWord(b: string, r: string)
    requires IsToken(b) && r == b + "\n"
    ensures Words(r) == [b]
  {
    var nl := "\n";
    NewlineNoWords(nl);
    assert IsSpace(nl[0]);
    WordsToken(b, nl);
  }

  lemma NewlineNoWords(nl: string)
    requires nl == "\n"
    ensures Words(nl) == []
  {
    assert IsSpace(nl[0]) && nl[1..] == [];
  }

  lemma StepIsToken(step: string)
    requires step == "STEP"
    ensures IsToken(step)
  {
    forall i | 0 <= i < |step| ensures !IsSpace(step[i]) { assert step[i] in "STEP"; }
  }

  lemma ZeroIsToken(zero: string)
    requires zero == "0"
    ensures IsToken(zero)
  {
  }

  /** A word list shorter than `1 _ x y z part`, or not of line type 1, is rejected as ill-formatted. */
  lemma DecodeRejectsShort(cat: Catalog, ts: seq<string>)
    requires |ts| < 6 || ts[0] != "1"
    ensures DecodePlacement(cat, ts) == Err(FormatError)
  {
  }

  /** A word list whose matrix is neither legal matrix is rejected as ill-formatted. */
  lemma DecodeRejectsMatrix(cat: Catalog, ts: seq<string>)
    requires |ts| >= 6 && ts[0] == "1" && Coordinates(ts).Ok?
    requires Orientation(JoinSpace(ts[5..|ts| - 1])).Err?
    ensures DecodePlacement(cat, ts) == Err(FormatError)
  {
  }

  /** The words of to_ldr's output: the placement words, then `0` and `STEP`. */
  lemma LdrWords(b: Brick, part: string, base: int)
    requires IsToken(part)
    ensures Words(PlacementLine(b, part, base) + StepLine) == PlacementTokens(b, part, base) + ["0", "STEP"]
  {
    PlacementWords(b, part, base, StepLine);
    StepWords();
  }

  /** A matrix followed by two more words is longer than either legal matrix. */
  lemma MatrixPlusWordsLength(ori: int, part: string)
    requires IsToken(part)
    ensures |JoinSpace(MatrixTokens(ori) + [part, "0"])| >= 22
  {
    var mt := MatrixTokens(ori);
    MatrixTextTokens(ori);
    JoinSpaceAppend(mt, [part, "0"]);
    assert JoinSpace([part, "0"]) == part + " " + "0" by {
      assert [part, "0"][1..] == ["0"];
    }
  }

  /** With the step words appended, the matrix words are too long to be a legal matrix. */
  lemma StepSpoilsMatrix(b: Brick, part: string, base: int)
    requires IsToken(part)
    ensures var ts := PlacementTokens(b, part, base) + ["0", "STEP"];
      |ts| >= 6 && ts[0] == "1" && Coordinates(ts).Ok? && Orientation(JoinSpace(ts[5..|ts| - 1])).Err?
  {
    var pt := PlacementTokens(b, part, base);
    var mt := MatrixTokens(Ori(b));
    PlacementFieldsParse(b, part, base);
    StepSlice(pt, mt, part, pt + ["0", "STEP"]);
    MatrixPlusWordsLength(Ori(b), part);
    MatrixLengths();
  }

  /** Appending the step words moves the part and `0` into the matrix slice and keeps the coordinates. */
  lemma StepSlice(pt: seq<string>, mt: seq<string>, part: string, ts: seq<string>)
    requires |pt| == 15 && |mt| == 9 && pt[5..14] == mt && pt[14] == part
    requires ts == pt + ["0", "STEP"]
    ensures |ts| == 17 && ts[0] == pt[0] && ts[2] == pt[2] && ts[3] == pt[3] && ts[4] == pt[4]
    ensures ts[5..|ts| - 1] == mt + [part, "0"]
  {
    assert ts[5..16] == pt[5..14] + [pt[14], "0"];
  }

  /**
   * Brick.from_ldr does not accept the whole of what Brick.to_ldr writes: the words of the
   * step line join the matrix, which then matches neither legal matrix. Only the
   * structure-level decoder, which first splits on `0 STEP`, reads it back.
   */
  lemma LdrSelfDecodeFails(cat: Catalog, b: Brick, base: int)
    requires WellFormed(cat) && BrickId(cat, b).Some?
    ensures ToLdr(cat, b, base).Ok?
    ensures FromLdr(cat, ToLdr(cat, b, base).value) == Err(FormatError)
  {
    KnownDims(cat, b.h, b.w);
    var part := PartId(cat, b).value;
    LdrWords(b, part, base);
    StepSpoilsMatrix(b, part, base);
    DecodeRejectsMatrix(cat, PlacementTokens(b, part, base) + ["0", "STEP"]);
  }
}
