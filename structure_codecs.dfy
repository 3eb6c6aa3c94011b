/**
 * The text, JSON and LDraw forms of a whole brick list: the per-brick forms concatenated
 * in list order, and the decoders that split them apart again.
 */
module StructureCodecs {
  import opened Results
  import opened Strings
  import opened BrickLibrary
  import opened Bricks
  import opened BrickText
  import opened BrickJson
  import opened BrickLdraw

  /** Decodes every item in order; the first item that fails decides the error. */
  function DecodeEach<T>(f: T -> Result<Brick>, xs: seq<T>): (r: Result<seq<Brick>>)
    ensures r.Ok? <==> forall k | 0 <= k < |xs| :: f(xs[k]).Ok?
    ensures r.Ok? ==> |r.value| == |xs| && forall k | 0 <= k < |xs| :: f(xs[k]) == Ok(r.value[k])
    ensures r.Err? ==> exists k | 0 <= k < |xs| :: f(xs[k]) == Err(r.error) && forall j | 0 <= j < k :: f(xs[j]).Ok?
  {
    if xs == [] then Ok([])
    else
      assert forall k | 1 <= k < |xs| :: xs[k] == xs[1..][k - 1];
      var b :- f(xs[0]);
      var rest :- DecodeEach(f, xs[1..]);
      Ok([b] + rest)
  }

  /** Items that each decode to the matching brick decode to the whole list. */
  lemma {:induction false} DecodeEachOk<T>(f: T -> Result<Brick>, xs: seq<T>, bs: seq<Brick>)
    requires |xs| == |bs| && forall k | 0 <= k < |xs| :: f(xs[k]) == Ok(bs[k])
    ensures DecodeEach(f, xs) == Ok(bs)
  {
    if xs != [] {
      assert forall k | 0 <= k < |xs| - 1 :: xs[1..][k] == xs[k + 1] && bs[1..][k] == bs[k + 1];
      DecodeEachOk(f, xs[1..], bs[1..]);
      assert bs == [bs[0]] + bs[1..];
    }
  }

  /**
   * The items that hold something besides whitespace, in order: the items whose strip()
   * is non-empty (StripEmpty).
   */
  function NonBlank(ls: seq<string>): (r: seq<string>)
    ensures |r| <= |ls|
    ensures forall k | 0 <= k < |r| :: !AllSpaces(r[k])
  {
    if ls == [] then []
    else (if !AllSpaces(ls[0]) then [ls[0]] else []) + NonBlank(ls[1..])
  }

  /** A single line is kept exactly when it is not all whitespace. */
  lemma NonBlankSingle(l: string)
    ensures NonBlank([l]) == if AllSpaces(l) then [] else [l]
  {
    assert [l][1..] == [];
  }

  lemma {:induction false} NonBlankAppend(a: seq<string>, b: seq<string>)
    ensures NonBlank(a + b) == NonBlank(a) + NonBlank(b)
  {
    if a != [] {
      assert (a + b)[1..] == a[1..] + b;
      NonBlankAppend(a[1..], b);
    } else {
      assert a + b == b;
    }
  }

  // ---------------------------------------------------------------------------
  // Text

  /** BrickStructure.to_txt: the brick lines in list order. */
  function BricksToTxt(bs: seq<Brick>): string {
    if bs == [] then [] else ToTxt(bs[0]) + BricksToTxt(bs[1..])
  }

  /** BrickStructure.from_txt: split on newlines, drop blank lines, decode each line. */
  function BricksFromTxt(s: string): Result<seq<Brick>> {
    DecodeEach(FromTxt, NonBlank(SplitOnChar(s, '\n')))
  }

  /** f applied to every brick, in order. */
  function MapBricks<T>(f: Brick -> T, bs: seq<Brick>): (r: seq<T>)
    ensures |r| == |bs| && forall k | 0 <= k < |bs| :: r[k] == f(bs[k])
  {
    if bs == [] then []
    else
      var r := [f(bs[0])] + MapBricks(f, bs[1..]);
      assert forall k | 1 <= k < |bs| :: bs[k] == bs[1..][k - 1];
      r
  }

  /** The brick lines without their newlines. */
  function TxtBodies(bs: seq<Brick>): (r: seq<string>)
    ensures |r| == |bs| && forall k | 0 <= k < |bs| :: r[k] == TxtBody(bs[k])
  {
    MapBricks(TxtBody, bs)
  }

  lemma TxtBodyOneLine(b: Brick)
    ensures '\n' !in TxtBody(b)
  {
    IntStrAvoids(b.h, '\n');
    IntStrAvoids(b.w, '\n');
    IntStrAvoids(b.x, '\n');
    IntStrAvoids(b.y, '\n');
    IntStrAvoids(b.z, '\n');
    TxtLineOneLine(IntStr(b.h), IntStr(b.w), IntStr(b.x), IntStr(b.y), IntStr(b.z), TxtBody(b));
  }

  /** A brick line assembled from fields without a newline has none. */
  lemma TxtLineOneLine(d1: string, d2: string, d3: string, d4: string, d5: string, t: string)
    requires '\n' !in d1 && '\n' !in d2 && '\n' !in d3 && '\n' !in d4 && '\n' !in d5
    requires t == TxtLine(d1, d2, d3, d4, d5)
    ensures '\n' !in t
  {
  }

  /** Splitting the structure text on newlines gives the brick lines, in order, and a final empty piece. */
  lemma {:induction false} TxtSplit(bs: seq<Brick>)
    ensures SplitOnChar(BricksToTxt(bs), '\n') == TxtBodies(bs) + [""]
  {
    if bs != [] {
      TxtBodyOneLine(bs[0]);
      assert BricksToTxt(bs) == TxtBody(bs[0]) + ['\n'] + BricksToTxt(bs[1..]);
      SplitOnCharPrefix(TxtBody(bs[0]), '\n', BricksToTxt(bs[1..]));
      TxtSplit(bs[1..]);
    }
  }

  lemma {:induction false} TxtBodiesNonBlank(bs: seq<Brick>)
    ensures NonBlank(TxtBodies(bs) + [""]) == TxtBodies(bs)
  {
    NonBlankAppend(TxtBodies(bs), [""]);
    assert NonBlank([""]) == [];
    if bs != [] {
      NonBlankPrefix(bs);
    }
  }

  lemma {:induction false} NonBlankPrefix(bs: seq<Brick>)
    ensures NonBlank(TxtBodies(bs)) == TxtBodies(bs)
  {
    if bs != [] {
      TxtBodyEnds(bs[0]);
      NonBlankPrefix(bs[1..]);
    }
  }

  /** The structure text round trip: from_txt(to_txt()) gives the list back when no field is negative. */
  lemma TxtStructureRoundTrip(bs: seq<Brick>)
    requires forall p | 0 <= p < |bs| :: NonNegative(bs[p])
    ensures BricksFromTxt(BricksToTxt(bs)) == Ok(bs)
  {
    TxtSplit(bs);
    TxtBodiesNonBlank(bs);
    var ls := TxtBodies(bs);
    forall k | 0 <= k < |bs| ensures FromTxt(ls[k]) == Ok(bs[k]) {
      TxtRoundTrip(bs[k]);
    }
    DecodeEachOk(FromTxt, ls, bs);
  }

  // ---------------------------------------------------------------------------
  // JSON

  /** A JSON object whose values are brick records, as its (key, value) items in order. */
  type JsonObject = seq<(string, BrickRecord)>

  /**
   * BrickStructure.to_json: the brick records keyed "1" to "n" in list order; a brick the
   * catalog does not know raises KeyError.
   */
  function BricksToJson(cat: Catalog, bs: seq<Brick>): (r: Result<JsonObject>)
    ensures r.Ok? <==> forall k | 0 <= k < |bs| :: BrickId(cat, bs[k]).Some?
    ensures r.Ok? ==> |r.value| == |bs|
    ensures r.Ok? ==> forall k | 0 <= k < |bs| :: r.value[k] == (IntStr(k + 1), ToJson(cat, bs[k]).value)
    ensures r.Err? ==> r.error == MissingKey
  {
    if forall k | 0 <= k < |bs| :: BrickId(cat, bs[k]).Some? then
      Ok(seq(|bs|, k requires 0 <= k < |bs| => (IntStr(k + 1), ToJson(cat, bs[k]).value)))
    else Err(MissingKey)
  }

  /** The values whose keys are non-empty digit strings (str.isdigit), in order. */
  function DigitKeyed(obj: JsonObject): (r: seq<BrickRecord>)
    ensures |r| <= |obj|
  {
    if obj == [] then []
    else (if IsNumeral(obj[0].0) then [obj[0].1] else []) + DigitKeyed(obj[1..])
  }

  /** BrickStructure.from_json: decode the values of the digit keys. */
  function BricksFromJson(cat: Catalog, obj: JsonObject): Result<seq<Brick>> {
    DecodeEach((rec: BrickRecord) => FromJson(cat, rec), DigitKeyed(obj))
  }

  /** The filter works item by item: a digit key keeps its value, any other key drops it. */
  lemma {:induction false} DigitKeyedAppend(a: JsonObject, b: JsonObject)
    ensures DigitKeyed(a + b) == DigitKeyed(a) + DigitKeyed(b)
  {
    if a == [] {
      assert a + b == b;
    } else {
      var ab := a + b;
      assert ab[0] == a[0] && ab[1..] == a[1..] + b;
      var head := if IsNumeral(a[0].0) then [a[0].1] else [];
      assert DigitKeyed(ab) == head + DigitKeyed(a[1..] + b);
      assert DigitKeyed(a) == head + DigitKeyed(a[1..]);
      DigitKeyedAppend(a[1..], b);
    }
  }

  lemma DigitKeyedSingle(key: string, rec: BrickRecord)
    ensures DigitKeyed([(key, rec)]) == if IsNumeral(key) then [rec] else []
  {
    assert [(key, rec)][1..] == [];
  }

  /** When every key is a digit string, all the values are kept, in order. */
  lemma {:induction false} DigitKeyedAll(obj: JsonObject)
    requires forall k | 0 <= k < |obj| :: IsNumeral(obj[k].0)
    ensures |DigitKeyed(obj)| == |obj| && forall k | 0 <= k < |obj| :: DigitKeyed(obj)[k] == obj[k].1
  {
    if obj != [] {
      assert forall k | 1 <= k < |obj| :: obj[k] == obj[1..][k - 1];
      DigitKeyedAll(obj[1..]);
    }
  }

  /** The structure JSON round trip: from_json(to_json()) gives the list back. */
  lemma JsonStructureRoundTrip(cat: Catalog, bs: seq<Brick>)
    requires WellFormed(cat) && forall p | 0 <= p < |bs| :: BrickId(cat, bs[p]).Some?
    ensures BricksToJson(cat, bs).Ok?
    ensures BricksFromJson(cat, BricksToJson(cat, bs).value) == Ok(bs)
  {
    var obj := BricksToJson(cat, bs).value;
    DigitKeyedAll(obj);
    var f := (rec: BrickRecord) => FromJson(cat, rec);
    var vs := DigitKeyed(obj);
    forall k | 0 <= k < |bs| ensures f(vs[k]) == Ok(bs[k]) {
      JsonRoundTrip(cat, bs[k]);
    }
    DecodeEachOk(f, vs, bs);
  }

  // ---------------------------------------------------------------------------
  // LDraw

  /** BrickStructure.to_ldr: each brick's placement and step lines, in list order, at the default base height. */
  /** Encodes every brick in order and concatenates the texts; the first failure decides the error. */
  function ConcatEach(f: Brick -> Result<string>, bs: seq<Brick>): (r: Result<string>)
    ensures r.Ok? <==> forall k | 0 <= k < |bs| :: f(bs[k]).Ok?
    ensures r.Err? ==> exists k | 0 <= k < |bs| :: f(bs[k]) == Err(r.error)
  {
    if bs == [] then Ok([])
    else
      assert forall k | 1 <= k < |bs| :: bs[k] == bs[1..][k - 1];
      var l :- f(bs[0]);
      var rest :- ConcatEach(f, bs[1..]);
      Ok(l + rest)
  }

  function BricksToLdr(cat: Catalog, bs: seq<Brick>): (r: Result<string>)
    ensures r.Ok? <==> forall k | 0 <= k < |bs| :: PartId(cat, bs[k]).Some?
    ensures r.Err? ==> r.error == MissingKey
  {
    ConcatEach((b: Brick) => ToLdr(cat, b, DefaultBaseHeight), bs)
  }

  /** The marker from_ldr splits on: the step line without its newline. */
  const StepMarker: string := "0 STEP"

  /** BrickStructure.from_ldr: split on `0 STEP`, drop blank pieces, decode each piece. */
  function BricksFromLdr(cat: Catalog, s: string): Result<seq<Brick>> {
    DecodeEach((piece: string) => FromLdr(cat, piece), NonBlank(SplitOn(s, StepMarker)))
  }

  /** The placement lines of a list of bricks whose parts the catalog knows. */
  function LdrLines(cat: Catalog, bs: seq<Brick>): (r: seq<string>)
    requires forall k | 0 <= k < |bs| :: PartId(cat, bs[k]).Some?
    ensures |r| == |bs|
    ensures forall k | 0 <= k < |bs| :: r[k] == PlacementLine(bs[k], PartId(cat, bs[k]).value, DefaultBaseHeight)
  {
    seq(|bs|, k requires 0 <= k < |bs| => PlacementLine(bs[k], PartId(cat, bs[k]).value, DefaultBaseHeight))
  }

  /** Each line followed by the step line. */
  function Stepped(ls: seq<string>): string {
    if ls == [] then [] else ls[0] + StepLine + Stepped(ls[1..])
  }

  /** The pieces the split leaves: the first line after lead, later lines after the step line's newline. */
  function Leads(lead: string, ls: seq<string>): (r: seq<string>)
    ensures |r| == |ls|
    ensures forall k | 0 <= k < |ls| :: r[k] == (if k == 0 then lead else "\n") + ls[k]
  {
    seq(|ls|, k requires 0 <= k < |ls| => (if k == 0 then lead else "\n") + ls[k])
  }

  /** The first piece, then the pieces of the remaining lines. */
  lemma LeadsCons(lead: string, ls: seq<string>)
    requires ls != []
    ensures Leads(lead, ls) == [lead + ls[0]] + Leads("\n", ls[1..])
  {
    var r := [lead + ls[0]] + Leads("\n", ls[1..]);
    forall k | 1 <= k < |ls| ensures r[k] == Leads(lead, ls)[k] {
      assert ls[1..][k - 1] == ls[k];
    }
  }

  lemma {:induction false} BricksToLdrStepped(cat: Catalog, bs: seq<Brick>)
    requires forall k | 0 <= k < |bs| :: PartId(cat, bs[k]).Some?
    ensures BricksToLdr(cat, bs) == Ok(Stepped(LdrLines(cat, bs)))
  {
    if bs != [] {
      var ls := LdrLines(cat, bs);
      LdrLinesTail(cat, bs);
      BricksToLdrStepped(cat, bs[1..]);
      LdrFirst(cat, bs);
      SteppedCons(ls, ls[0], LdrLines(cat, bs[1..]));
    }
  }

  /** One step of BricksToLdr: the first brick's text, then the rest's. */
  lemma LdrFirst(cat: Catalog, bs: seq<Brick>)
    requires bs != [] && forall k | 0 <= k < |bs| :: PartId(cat, bs[k]).Some?
    ensures BricksToLdr(cat, bs) == Ok(ToLdr(cat, bs[0], DefaultBaseHeight).value + BricksToLdr(cat, bs[1..]).value)
  {
  }

  lemma LdrLinesTail(cat: Catalog, bs: seq<Brick>)
    requires bs != [] && forall k | 0 <= k < |bs| :: PartId(cat, bs[k]).Some?
    ensures forall k | 0 <= k < |bs[1..]| :: PartId(cat, bs[1..][k]).Some?
    ensures LdrLines(cat, bs)[0] + StepLine == ToLdr(cat, bs[0], DefaultBaseHeight).value
    ensures LdrLines(cat, bs)[1..] == LdrLines(cat, bs[1..])
  {
    assert forall k | 0 <= k < |bs[1..]| :: bs[1..][k] == bs[k + 1];
  }

  lemma SteppedCons(ls: seq<string>, l: string, rest: seq<string>)
    requires ls != [] && ls[0] == l && ls[1..] == rest
    ensures Stepped(ls) == l + StepLine + Stepped(rest)
  {
  }

  /** `0 STEP` cannot begin inside a string without `S`, even running into a following marker. */
  lemma NoStepBefore(l: string)
    requires 'S' !in l
    ensures forall p | 0 <= p < |l| :: !OccursAt(l + StepMarker, StepMarker, p)
  {
    var s := l + StepMarker;
    forall p | 0 <= p < |l| ensures !OccursAt(s, StepMarker, p) {
      if p + 2 < |l| {
        assert s[p + 2] == l[p + 2];
      } else {
        assert s[p + 2] == StepMarker[p + 2 - |l|];
      }
      if p + 6 <= |s| {
        assert s[p..p + 6][2] == s[p + 2];
      }
    }
  }

  /** Splitting stepped lines on the marker cuts right after each line. */
  lemma {:induction false} SplitStepped(lead: string, ls: seq<string>)
    requires lead == [] || lead == "\n"
    requires forall k | 0 <= k < |ls| :: 'S' !in ls[k]
    ensures SplitOn(lead + Stepped(ls), StepMarker) == Leads(lead, ls) + [if ls == [] then lead else "\n"]
    decreases |ls|
  {
    if ls == [] {
      assert lead + Stepped(ls) == lead;
      SplitOnShort(lead, StepMarker);
    } else {
      var l := lead + ls[0];
      var rest := "\n" + Stepped(ls[1..]);
      assert 'S' !in l;
      SteppedHead(lead, ls, l, rest);
      NoStepBefore(l);
      SplitOnPrefix(l, StepMarker, rest);
      assert forall k | 0 <= k < |ls[1..]| :: ls[1..][k] == ls[k + 1];
      SplitStepped("\n", ls[1..]);
      LeadsCons(lead, ls);
    }
  }

  /** The first stepped line, its marker, and the newline that starts the rest. */
  lemma SteppedHead(lead: string, ls: seq<string>, l: string, rest: string)
    requires ls != [] && l == lead + ls[0] && rest == "\n" + Stepped(ls[1..])
    ensures lead + Stepped(ls) == l + StepMarker + rest
  {
    assert StepLine == StepMarker + "\n";
  }

  /** Pieces that start with a non-blank line after their lead are all kept. */
  lemma {:induction false} LeadsNonBlank(lead: string, ls: seq<string>)
    requires forall k | 0 <= k < |ls| :: ls[k] != [] && !IsSpace(ls[k][0])
    ensures NonBlank(Leads(lead, ls)) == Leads(lead, ls)
    decreases |ls|
  {
    if ls != [] {
      assert (lead + ls[0])[|lead|] == ls[0][0];
      assert forall k | 0 <= k < |ls[1..]| :: ls[1..][k] == ls[k + 1];
      LeadsNonBlank("\n", ls[1..]);
      LeadsCons(lead, ls);
    }
  }

  lemma KnownParts(cat: Catalog, bs: seq<Brick>)
    requires WellFormed(cat) && forall p | 0 <= p < |bs| :: BrickId(cat, bs[p]).Some?
    ensures forall k | 0 <= k < |bs| :: PartId(cat, bs[k]).Some? && IsPartName(PartId(cat, bs[k]).value)
  {
    forall k | 0 <= k < |bs| ensures PartId(cat, bs[k]).Some? && IsPartName(PartId(cat, bs[k]).value) {
      KnownDims(cat, bs[k].h, bs[k].w);
    }
  }

  /** The non-blank pieces of the structure's LDraw text are its placement lines, after their leads. */
  lemma LdrPieces(cat: Catalog, bs: seq<Brick>)
    requires WellFormed(cat) && forall p | 0 <= p < |bs| :: BrickId(cat, bs[p]).Some?
    ensures forall k | 0 <= k < |bs| :: PartId(cat, bs[k]).Some?
    ensures BricksToLdr(cat, bs).Ok?
    ensures NonBlank(SplitOn(BricksToLdr(cat, bs).value, StepMarker)) == Leads([], LdrLines(cat, bs))
  {
    KnownParts(cat, bs);
    var ls := LdrLines(cat, bs);
    forall k | 0 <= k < |ls| ensures 'S' !in ls[k] && ls[k] != [] && !IsSpace(ls[k][0]) {
      LineAt(cat, bs, k);
    }
    BricksToLdrStepped(cat, bs);
    SteppedPieces(ls, BricksToLdr(cat, bs).value);
  }

  lemma LineAt(cat: Catalog, bs: seq<Brick>, k: int)
    requires forall p | 0 <= p < |bs| :: PartId(cat, bs[p]).Some? && IsPartName(PartId(cat, bs[p]).value)
    requires 0 <= k < |bs|
    ensures 'S' !in LdrLines(cat, bs)[k] && LdrLines(cat, bs)[k] != [] && !IsSpace(LdrLines(cat, bs)[k][0])
  {
    PlacementLineIs(bs[k], PartId(cat, bs[k]).value, DefaultBaseHeight, LdrLines(cat, bs)[k]);
  }

  /** Splitting stepped lines without `S`, each starting with a non-blank, and dropping blanks leaves the leads. */
  lemma SteppedPieces(ls: seq<string>, s: string)
    requires forall k | 0 <= k < |ls| :: 'S' !in ls[k] && ls[k] != [] && !IsSpace(ls[k][0])
    requires s == Stepped(ls)
    ensures NonBlank(SplitOn(s, StepMarker)) == Leads([], ls)
  {
    SplitStepped([], ls);
    assert [] + Stepped(ls) == Stepped(ls);
    var end := if ls == [] then [] else "\n";
    var pieces := Leads([], ls);
    NonBlankAppend(pieces, [end]);
    assert NonBlank([end]) == [];
    LeadsNonBlank([], ls);
  }

  /** Every piece decodes to its brick. */
  lemma LdrPiecesDecode(cat: Catalog, bs: seq<Brick>)
    requires WellFormed(cat) && forall p | 0 <= p < |bs| :: BrickId(cat, bs[p]).Some?
    ensures forall k | 0 <= k < |bs| :: PartId(cat, bs[k]).Some?
    ensures forall k | 0 <= k < |bs| :: FromLdr(cat, Leads([], LdrLines(cat, bs))[k]) == Ok(bs[k])
  {
    KnownParts(cat, bs);
    forall k | 0 <= k < |bs| ensures FromLdr(cat, Leads([], LdrLines(cat, bs))[k]) == Ok(bs[k]) {
      PieceAt(cat, bs, k);
    }
  }

  lemma PieceAt(cat: Catalog, bs: seq<Brick>, k: int)
    requires WellFormed(cat) && forall p | 0 <= p < |bs| :: BrickId(cat, bs[p]).Some?
    requires forall p | 0 <= p < |bs| :: PartId(cat, bs[p]).Some?
    requires 0 <= k < |bs|
    ensures FromLdr(cat, Leads([], LdrLines(cat, bs))[k]) == Ok(bs[k])
  {
    var ls := LdrLines(cat, bs);
    var pre: string := if k == 0 then [] else "\n";
    assert AllSpaces(pre);
    PieceDecodes(cat, bs[k], pre, ls[k], Leads([], ls)[k]);
  }

  /** One piece of the split text: a blank lead followed by a placement line at the default base. */
  lemma PieceDecodes(cat: Catalog, b: Brick, pre: string, l: string, piece: string)
    requires WellFormed(cat) && BrickId(cat, b).Some? && PartId(cat, b).Some?
    requires AllSpaces(pre) && l == PlacementLine(b, PartId(cat, b).value, DefaultBaseHeight)
    requires piece == pre + l
    ensures FromLdr(cat, piece) == Ok(b)
  {
    LdrRoundTripDefault(cat, b, pre, piece);
  }

  /**
   * The structure LDraw round trip: from_ldr(to_ldr()) gives the list back. Splitting on
   * `0 STEP` separates the placement lines, since no placement line contains an `S`.
   */
  lemma LdrStructureRoundTrip(cat: Catalog, bs: seq<Brick>)
    requires WellFormed(cat) && forall p | 0 <= p < |bs| :: BrickId(cat, bs[p]).Some?
    ensures BricksToLdr(cat, bs).Ok?
    ensures BricksFromLdr(cat, BricksToLdr(cat, bs).value) == Ok(bs)
  {
    LdrPieces(cat, bs);
    LdrPiecesDecode(cat, bs);
    var pieces := Leads([], LdrLines(cat, bs));
    var f := (piece: string) => FromLdr(cat, piece);
    assert forall k | 0 <= k < |bs| :: f(pieces[k]) == Ok(bs[k]);
    DecodeEachOk(f, pieces, bs);
  }
}
