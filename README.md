# Brick structures: a verified model

This project models the data core of the BrickGPT pipeline: the `Brick` value and the
`BrickStructure` container of `src/brickgpt/data/brick_structure.py`.

A `Brick` is a box one layer tall. It has a footprint of `h` by `w` grid cells, a position
`(x, y)` and a layer `z`. The model covers:

- its derived properties: catalog id, part id, orientation, area and slices;
- its three codecs:
  - the text form `HxW (x,y,z)`;
  - the JSON record `{brick_id, x, y, z, ori}`;
  - the LDraw placement line, where the bricks are line-type-1 parts of the LDraw File
    Format 1.0.2 and each line is followed by a `0 STEP` meta-command.

A `BrickStructure` is a list of bricks plus a voxel occupancy grid of a cubic world of side
`world_dim`. The grid counts, at each voxel, the bricks whose slice holds it. The model covers:

- `add_brick` and `undo_add_brick`, which keep the list and the grid in step;
- the geometric checks: bounds, collisions and floating bricks;
- the gates in front of the external stability and connectivity scorers;
- equality;
- the structure-level serialisers and parsers.

Layout, one module per concern:

| File | Module | What it holds |
|---|---|---|
| `results.dfy` | `Results` | errors, `Option`/`Result`, the `Outcome` of a state change |
| `strings.dfy` | `Strings` | the Python string operations the codecs rely on: `strip`, `split()`, `split(sep)`, `isdigit`, `int`, `float` of plain decimals, `str` of ints and integral floats, modelled exactly except as listed under "Left out" |
| `catalog.dfy` | `BrickLibrary` | the dimensions/id/part catalog, as a parameter with a well-formedness predicate |
| `brick.dfy` | `Bricks` | `Brick` and its properties |
| `brick_text.dfy` | `BrickText` | the text codec |
| `brick_json.dfy` | `BrickJson` | the JSON codec |
| `brick_ldraw.dfy` | `BrickLdraw` | the LDraw codec |
| `structure_codecs.dfy` | `StructureCodecs` | the structure-level codecs on brick lists |
| `grid.dfy` | `Grid` | voxel counts, collisions, bounds, floating |
| `gates.dfy` | `Gates` | score gating and the stable/connected verdicts |
| `structure.dfy` | `Structure` | the `BrickStructure` class over an `array3<int>` occupancy grid |
| `structure_vectors.dfy` | `StructureVectors` | the repository's test vectors |

The class keeps one invariant, `Valid()`: every in-world grid cell equals `Count` of the
bricks covering that cell. `Count` is a function of the brick list, with numpy's clipping of
slices at the world's edge written out. Each grid query is proved equal to a predicate on the
brick list, and the lemmas of `Grid` and `Gates` are stated and proved about those predicates.
For example, "the grid has a cell above 1" holds exactly when "two listed bricks on the same
layer have overlapping in-world footprints".

Python exceptions become `Err` values: `ValueError` from a failed match is `FormatError`,
`KeyError` from a catalog lookup is `MissingKey`, the two scoring refusals are
`PreconditionError`, `IndexError` is reading the last brick of an empty list (before anything
is popped or the grid touched) or a brick the grid cannot hold, and `max()` of no scores is
`EmptyReduction`.

`Brick.from_ldr` does not invert `Brick.to_ldr`, and the model follows the code:

- `to_ldr` appends `0 STEP\n`. `from_ldr` splits the whole text into
  words, so `0` and `STEP` become the last two tokens: `STEP` is taken as the part id and the
  matrix picks up two extra words. The decoder then raises on the matrix.
- `BrickLdraw.LdrSelfDecodeFails` proves that this happens for every brick the catalog knows.
- The round trip does hold on the placement line alone (`BrickLdraw.LdrRoundTrip`).
- It also holds at structure level, where the text is first split on `0 STEP`
  (`StructureCodecs.LdrStructureRoundTrip`).

## Model

| member | source | states |
|---|---|---|
| Bricks.Ori | src/brickgpt/data/brick_structure.py:32-34 | ori is 0 or 1, and it is 1 exactly when h > w |
| Bricks.Area | src/brickgpt/data/brick_structure.py:36-38 | h * w; its use is stated by Bricks.SwapFlipsOri and StructureVectors.BrickVector |
| Bricks.Slice2d | src/brickgpt/data/brick_structure.py:40-42 | the ranges [x, x+h) and [y, y+w); their meaning is stated by Bricks.CoversIsFootprint |
| Bricks.Slice | src/brickgpt/data/brick_structure.py:44-46 | the 2-D slice and layer z; its meaning is stated by Bricks.CoversIsFootprint |
| Bricks.BrickId | src/brickgpt/data/brick_structure.py:24-26 | the catalog lookup of (h, w); stated by BrickLibrary.DimsToId and Bricks.BrickIdSymmetric |
| Bricks.PartId | src/brickgpt/data/brick_structure.py:28-30 | the part of the brick's id; stated by BrickLibrary.IdToPart and BrickLibrary.KnownDims |
| Bricks.SwapFlipsOri | src/brickgpt/data/brick_structure.py:32-38 | swapping h and w of a non-square brick flips ori and keeps the area |
| Bricks.CoversIsFootprint | src/brickgpt/data/brick_structure.py:40-46 | a voxel is in the brick's slice exactly when it is in [x, x+h) by [y, y+w) on layer z |
| Bricks.BrickIdSymmetric | src/brickgpt/data/brick_structure.py:24-26 | the catalog id does not depend on which of h and w is first |
| Bricks.LessIsStrictTotalOrder | src/brickgpt/data/brick_structure.py:13-22 | the dataclass order, lexicographic on (h, w, x, y, z), is irreflexive, transitive, total and asymmetric |
| BrickLibrary.DimsToId | src/brickgpt/data/brick_structure.py:8-10 | an id is found exactly when some entry has the dimensions in either order, and the id is that entry's |
| BrickLibrary.IdToDims | src/brickgpt/data/brick_structure.py:8-10 | dimensions are found exactly when some entry has the id, and they are that entry's |
| BrickLibrary.IdToPart | src/brickgpt/data/brick_structure.py:8-10 | a part is found exactly when some entry has the id, and it is that entry's |
| BrickLibrary.PartToId | src/brickgpt/data/brick_structure.py:8-10 | an id is found exactly when some entry has the part, and it is that entry's |
| BrickLibrary.LookupEntry | src/brickgpt/data/brick_structure.py:8-10 | in a well-formed catalog, each of the four lookups finds any entry by its own key |
| BrickLibrary.DimsToIdSymmetric | src/brickgpt/data/brick_structure.py:24-26 | looking up (h, w) and (w, h) gives the same answer |
| BrickLibrary.IdToDimsOfDimsToId | src/brickgpt/data/brick_structure.py:72-78 | the dimensions of a found id are the looked-up pair, smaller side first |
| BrickLibrary.PartToIdOfIdToPart | src/brickgpt/data/brick_structure.py:104 | part to id inverts id to part |
| BrickLibrary.KnownDims | src/brickgpt/data/brick_structure.py:24-30 | a brick with an id has a part id, which is one token and maps back to that id |
| BrickLibrary.SampleWellFormed | tests/test_brick_structure.py:6-16 | the sample catalog (id 3 = 2x6 = 2456.DAT) is well formed and answers the lookups the tests use |
| BrickText.ToTxt | src/brickgpt/data/brick_structure.py:60-61 | `HxW (x,y,z)` and a newline; its meaning is stated by BrickText.TxtRoundTrip and BrickText.StripTxt |
| BrickText.ParseTxt | src/brickgpt/data/brick_structure.py:83-87 | the full match of the pattern; stated by BrickText.ParseTxtSound and BrickText.ParseTxtComplete |
| BrickText.FromTxt | src/brickgpt/data/brick_structure.py:80-88 | from_txt fails only with a format error |
| BrickText.FromTxtMatches | src/brickgpt/data/brick_structure.py:80-88 | from_txt returns b exactly when the stripped line fully matches `D+xD+ (D+,D+,D+)` with b's fields as the numerals |
| BrickText.ParseTxtSound | src/brickgpt/data/brick_structure.py:83-87 | whatever the parser accepts is a full match of the pattern |
| BrickText.ParseTxtComplete | src/brickgpt/data/brick_structure.py:83-87 | every line built from five numerals in the pattern is accepted, with their values |
| BrickText.StripTxt | src/brickgpt/data/brick_structure.py:60-82 | stripping to_txt's output leaves the line without its newline |
| BrickText.MatchHasNoMinus | src/brickgpt/data/brick_structure.py:83 | a matching line holds no minus sign |
| BrickText.TxtRoundTrip | src/brickgpt/data/brick_structure.py:60-88 | from_txt(to_txt(b)) is b when all fields are non-negative, a format error otherwise, and the newline makes no difference |
| BrickJson.ToJson | src/brickgpt/data/brick_structure.py:51-58 | to_json succeeds exactly when the catalog has the brick's dimensions, else it raises KeyError |
| BrickJson.FromJson | src/brickgpt/data/brick_structure.py:72-78 | from_json succeeds exactly when the catalog knows the id, else it raises KeyError |
| BrickJson.JsonRoundTrip | src/brickgpt/data/brick_structure.py:51-78 | from_json(to_json(b)) == b for every catalogued brick |
| BrickJson.JsonNormalises | src/brickgpt/data/brick_structure.py:51-78 | re-encoding a decoded record gives the record with its ori normalised, and a 0/1 ori of a non-square brick survives |
| BrickJson.SampleRecord | tests/test_brick_structure.py:6-15 | the record {3, 0, 1, 2, ori 1} decodes to 6x2 (0,1,2) and encodes back |
| BrickLdraw.LdrX | src/brickgpt/data/brick_structure.py:64 | the LDraw x is exactly (x + h * 0.5) * 20 |
| BrickLdraw.LdrZ | src/brickgpt/data/brick_structure.py:65 | the LDraw z is exactly (y + w * 0.5) * 20 |
| BrickLdraw.LdrY | src/brickgpt/data/brick_structure.py:66 | (z + base_height) * -24; undone by BrickLdraw.CoordinatesBack |
| BrickLdraw.PlacementLine | src/brickgpt/data/brick_structure.py:68 | the seven fields joined by spaces; stated by BrickLdraw.PlacementLineWords and BrickLdraw.LdrRoundTrip |
| BrickLdraw.Place | src/brickgpt/data/brick_structure.py:108-112 | int() of the three coordinate formulas; stated by BrickLdraw.PlaceBack and BrickLdraw.CoordinatesBack |
| BrickLdraw.PlaceBack | src/brickgpt/data/brick_structure.py:108-112 | placing the coordinates to_ldr writes gives the brick raised by base_height |
| BrickLdraw.MatrixTextTokens | src/brickgpt/data/brick_structure.py:67 | both matrices are nine tokens joined by single spaces, of lengths 18 and 19, without an `S` |
| BrickLdraw.ToLdr | src/brickgpt/data/brick_structure.py:63-70 | to_ldr succeeds exactly when the brick has a part id, and then gives the placement line followed by `0 STEP\n` |
| BrickLdraw.PlacementLineWords | src/brickgpt/data/brick_structure.py:68-92 | splitting a placement line into words gives back its fifteen fields |
| BrickLdraw.PlacementLineShape | src/brickgpt/data/brick_structure.py:68 | a placement line starts with `1` and holds no `S` |
| BrickLdraw.StepWords | src/brickgpt/data/brick_structure.py:69 | the step line splits into the words `0` and `STEP` |
| BrickLdraw.Coordinates | src/brickgpt/data/brick_structure.py:95 | the three coordinates are read exactly when each parses as a float, and the error is a format error |
| BrickLdraw.Orientation | src/brickgpt/data/brick_structure.py:96-102 | only the two legal matrices are accepted, each giving its ori; anything else is a format error |
| BrickLdraw.Dimensions | src/brickgpt/data/brick_structure.py:104-106 | dimensions are found exactly when the part and then its id are catalogued, else KeyError |
| BrickLdraw.DecodePlacement | src/brickgpt/data/brick_structure.py:93-114 | a placement fails only with a format error or a missing key |
| BrickLdraw.DecodePlacementOf | src/brickgpt/data/brick_structure.py:94-112 | with coordinates, a legal matrix and known dimensions, the brick is placed from them |
| BrickLdraw.DecodeRejectsShort | src/brickgpt/data/brick_structure.py:93-114 | fewer than six words, or a first word other than `1`, is a format error |
| BrickLdraw.DecodeRejectsMatrix | src/brickgpt/data/brick_structure.py:96-102 | a matrix that is neither legal one is a format error, whatever the part |
| BrickLdraw.FromLdr | src/brickgpt/data/brick_structure.py:90-114 | from_ldr fails only with a format error or a missing key |
| BrickLdraw.CoordinatesBack | src/brickgpt/data/brick_structure.py:108-110 | truncating the decoded coordinates gives back x, y and z + base_height |
| BrickLdraw.LdrRoundTrip | src/brickgpt/data/brick_structure.py:63-112 | decoding the placement line of a catalogued brick gives the brick raised by base_height |
| BrickLdraw.LdrRoundTripAfterSpace | src/brickgpt/data/brick_structure.py:91-92 | leading whitespace before the placement line changes nothing |
| BrickLdraw.LdrRoundTripDefault | src/brickgpt/data/brick_structure.py:63-112 | with the default base_height 0, the placement line decodes to the brick itself |
| BrickLdraw.LdrSelfDecodeFails | src/brickgpt/data/brick_structure.py:63-114 | decoding the whole of to_ldr's output, step line included, is a format error for every catalogued brick |
| Strings.IntStr | src/brickgpt/data/brick_structure.py:61 | str of an int is a numeral of its value, after a minus sign when negative |
| Strings.NatStr | src/brickgpt/data/brick_structure.py:61 | str of a natural is a numeral of its value with no leading zero |
| Strings.Strip | src/brickgpt/data/brick_structure.py:82 | strip() leaves no whitespace at either end; Strings.StripEmpty and Strings.StripNewline state what it removes |
| Strings.StripNewline | src/brickgpt/data/brick_structure.py:82 | stripping a trailing newline from a line that has no whitespace at its ends gives the line |
| Strings.Words | src/brickgpt/data/brick_structure.py:92 | split(); stated by Strings.WordsAreTokens and Strings.WordsJoin |
| Strings.JoinSpace | src/brickgpt/data/brick_structure.py:96 | ' '.join; inverted by Strings.WordsJoin |
| Strings.SplitOn | src/brickgpt/data/brick_structure.py:231 | str.split(sep), at least one piece; stated by Strings.SplitOnPrefix and Strings.SplitOnShort |
| Strings.SplitOnShort | src/brickgpt/data/brick_structure.py:231 | a string shorter than the separator is not split |
| Strings.ParseFloat | src/brickgpt/data/brick_structure.py:95 | float() of an optionally signed decimal; stated by Strings.ParseFloatIntStr |
| Strings.StripEmpty | src/brickgpt/data/brick_structure.py:225 | a string strips to empty exactly when it is all whitespace |
| Strings.WordsAreTokens | src/brickgpt/data/brick_structure.py:92 | split() gives non-empty words without whitespace |
| Strings.WordsJoin | src/brickgpt/data/brick_structure.py:92-96 | splitting words joined by single spaces gives the words back |
| Strings.ParseFloatIntStr | src/brickgpt/data/brick_structure.py:95 | float() of str of an integer, or of an integral float, is that integer |
| Strings.Trunc | src/brickgpt/data/brick_structure.py:108-110 | int() of a float truncates toward zero |
| Strings.SplitOnPrefix | src/brickgpt/data/brick_structure.py:231 | split(sep) cuts at the first occurrence of the separator |
| StructureCodecs.DecodeEach | src/brickgpt/data/brick_structure.py:226 | decoding a list succeeds exactly when every item decodes, and the results are in order; on failure the error is that of the first item that fails |
| StructureCodecs.NonBlank | src/brickgpt/data/brick_structure.py:225 | every line the blank-line filter keeps holds something besides whitespace, and the filter never lengthens the list |
| StructureCodecs.NonBlankSingle | src/brickgpt/data/brick_structure.py:225 | a single line is kept exactly when it is not all whitespace; with NonBlankAppend this makes NonBlank the filter of line 225 |
| StructureCodecs.NonBlankAppend | src/brickgpt/data/brick_structure.py:225 | filtering distributes over concatenation |
| StructureCodecs.BricksToTxt | src/brickgpt/data/brick_structure.py:150-151 | the bricks' lines concatenated in order; inverted by StructureCodecs.TxtStructureRoundTrip |
| StructureCodecs.BricksFromTxt | src/brickgpt/data/brick_structure.py:224-226 | split on newlines, drop blank lines, decode each; stated by StructureCodecs.TxtStructureRoundTrip and StructureVectors.TxtVector |
| StructureCodecs.TxtSplit | src/brickgpt/data/brick_structure.py:224 | splitting the structure's text on newlines gives each brick's line, then an empty piece |
| StructureCodecs.TxtStructureRoundTrip | src/brickgpt/data/brick_structure.py:222-227 | from_txt(to_txt()) gives the same brick list when every field is non-negative |
| StructureCodecs.BricksToJson | src/brickgpt/data/brick_structure.py:147-148 | to_json succeeds exactly when every brick has an id; entry k has key str(k+1) and brick k's record, in list order |
| StructureCodecs.DigitKeyed | src/brickgpt/data/brick_structure.py:219 | the values of the digit keys, in order; stated by DigitKeyedSingle, DigitKeyedAppend and DigitKeyedAll |
| StructureCodecs.BricksFromJson | src/brickgpt/data/brick_structure.py:219 | decode each digit-keyed record; stated by StructureCodecs.JsonStructureRoundTrip |
| StructureCodecs.DigitKeyedAppend | src/brickgpt/data/brick_structure.py:219 | the digit-key filter distributes over concatenation of objects |
| StructureCodecs.DigitKeyedSingle | src/brickgpt/data/brick_structure.py:219 | an entry is kept exactly when its key is all digits |
| StructureCodecs.DigitKeyedAll | src/brickgpt/data/brick_structure.py:219 | an object with only digit keys keeps every value, in order |
| StructureCodecs.JsonStructureRoundTrip | src/brickgpt/data/brick_structure.py:217-220 | from_json(to_json()) gives the same brick list for a catalogued list |
| StructureCodecs.BricksToLdr | src/brickgpt/data/brick_structure.py:153-154 | to_ldr succeeds exactly when every brick has a part id, else KeyError |
| StructureCodecs.BricksToLdrStepped | src/brickgpt/data/brick_structure.py:153-154 | to_ldr is the bricks' placement lines, in order, each followed by the step line |
| StructureCodecs.BricksFromLdr | src/brickgpt/data/brick_structure.py:231-233 | split on `0 STEP`, drop blank pieces, decode each; stated by StructureCodecs.LdrStructureRoundTrip |
| StructureCodecs.SplitStepped | src/brickgpt/data/brick_structure.py:231 | splitting on `0 STEP` cuts right after each placement line |
| StructureCodecs.LdrPieces | src/brickgpt/data/brick_structure.py:229-232 | the non-blank pieces of to_ldr's output are the placement lines, each after a newline except the first |
| StructureCodecs.LdrStructureRoundTrip | src/brickgpt/data/brick_structure.py:229-234 | from_ldr(to_ldr()) gives the same brick list for a catalogued list |
| Grid.Count | src/brickgpt/data/brick_structure.py:132-134 | a voxel's count is at most the number of bricks, and positive exactly when some brick covers it |
| Grid.CountAppend | src/brickgpt/data/brick_structure.py:156-158 | appending a brick adds one at exactly the voxels it covers |
| Grid.CountAboveOne | src/brickgpt/data/brick_structure.py:173 | a count above one means two different bricks cover the voxel, and conversely |
| Grid.Colliding | src/brickgpt/data/brick_structure.py:172-173 | two listed bricks on one in-world layer with meeting clipped footprints; tied to the grid by Grid.CollisionIff |
| Grid.CollisionIff | src/brickgpt/data/brick_structure.py:172-173 | some in-world voxel counts more than one exactly when two bricks on the same in-world layer have overlapping in-world footprints |
| Grid.OccupiedUnderFootprint | src/brickgpt/data/brick_structure.py:184-186 | some voxel under the clipped footprint on a layer is occupied exactly when a listed brick on that layer meets the footprint |
| Grid.InBounds | src/brickgpt/data/brick_structure.py:168-170 | the footprint within [0, D) on both axes and 0 <= z < D; stated by Grid.InBoundsMeansCellsInWorld and Grid.BoundsVectors |
| Grid.Floats | src/brickgpt/data/brick_structure.py:181-188 | off the ground, nothing met below, and unless on the top layer nothing met above; tied to the grid by Structure.BrickStructure.BrickFloats |
| Grid.InBoundsMeansCellsInWorld | src/brickgpt/data/brick_structure.py:168-170 | every voxel of an in-bounds brick is inside the world |
| Grid.BoundsVectors | tests/test_brick_structure.py:80-89 | 2x6 at x 0 and 18 is in bounds of a 20 world, at x 19 it is not |
| Grid.CollisionVectors | tests/test_brick_structure.py:40-47 | 2x6 bricks at x 0 and 1 collide, at x 0 and 2 they do not |
| Grid.FloatingVectors | tests/test_brick_structure.py:50-57 | a 2x6 on layer 1 beside a ground brick floats, two ground bricks do not, a stack on layers 1 and 2 neither floats nor collides |
| Gates.MaxOf | src/brickgpt/data/brick_structure.py:193 | the maximum is in the array and bounds every element |
| Gates.MaxBelowOne | src/brickgpt/data/brick_structure.py:193 | `max() < 1` raises exactly on no scores, and otherwise holds exactly when every score is below 1 |
| Gates.ScoreGate | src/brickgpt/data/brick_structure.py:195-199 | scoring may proceed exactly with no collision and nothing out of bounds, and the collision refusal comes first |
| Gates.StabilityScores | src/brickgpt/data/brick_structure.py:195-202 | the gate, then the scorer on the JSON object; stated by Gates.StableIff and Gates.StableErrors |
| Gates.ConnectivityScores | src/brickgpt/data/brick_structure.py:209-215 | the gate, then the scorer on the brick list; stated by Gates.ConnectedIff |
| Gates.IsStable | src/brickgpt/data/brick_structure.py:190-193 | unscored False when floating or colliding, else `max() < 1` of the scores; stated by Gates.StableIff |
| Gates.IsConnected | src/brickgpt/data/brick_structure.py:204-207 | unscored False when floating or colliding, else `max() < 1` of the scores; stated by Gates.ConnectedIff |
| Gates.StableIff | src/brickgpt/data/brick_structure.py:190-202 | stable exactly when nothing floats, collides or is out of bounds, every brick is catalogued, and the scores are non-empty and all below 1 |
| Gates.StableErrors | src/brickgpt/data/brick_structure.py:190-202 | is_stable raises exactly when nothing floats or collides but a brick is out of bounds, uncatalogued, or there are no scores, with the matching error |
| Gates.ConnectedIff | src/brickgpt/data/brick_structure.py:204-215 | connected exactly when nothing floats, collides or is out of bounds and all scores, of which there is one at least, are below 1; raises exactly in the other unfloating, uncolliding cases |
| Gates.GatedUnscored | src/brickgpt/data/brick_structure.py:190-207 | a floating or colliding structure is neither stable nor connected, whatever the scorers return |
| Gates.GateVectors | tests/test_brick_structure.py:60-67 | the floating test structure is unstable for any scorer; an out-of-bounds structure is refused by both scorers |
| Structure.BrickStructure.constructor | src/brickgpt/data/brick_structure.py:122-134 | the new structure holds the given bricks in order, over a fresh grid each of whose cells counts the bricks covering it |
| Structure.BrickStructure.AddBrick | src/brickgpt/data/brick_structure.py:156-158 | the brick is appended and every in-world voxel it covers gains one, all others unchanged |
| Structure.BrickStructure.UndoAddBrick | src/brickgpt/data/brick_structure.py:160-163 | on an empty structure it raises IndexError and changes nothing; otherwise the last brick is removed and its voxels lose one |
| Structure.BrickStructure.AddThenUndo | src/brickgpt/data/brick_structure.py:156-163 | adding then undoing restores the brick list and the whole grid |
| Structure.BrickStructure.BrickInBounds | src/brickgpt/data/brick_structure.py:168-170 | the brick's footprint lies in [0, world_dim) on both axes and its layer is a grid layer |
| Structure.BrickStructure.HasOutOfBoundsBricks | src/brickgpt/data/brick_structure.py:165-166 | some listed brick is out of bounds |
| Structure.BrickStructure.HasCollisions | src/brickgpt/data/brick_structure.py:172-173 | the grid test holds exactly when two listed bricks collide |
| Structure.BrickStructure.OverfullCells | src/brickgpt/data/brick_structure.py:173 | a grid cell above 1 exists exactly when two listed bricks collide |
| Structure.BrickStructure.OccupiedUnder | src/brickgpt/data/brick_structure.py:184-186 | the grid under a footprint on a layer is occupied exactly when a listed brick there meets the footprint |
| Structure.BrickStructure.BrickCollides | src/brickgpt/data/brick_structure.py:175-176 | the brick's slice is occupied exactly when a listed brick on its layer meets its footprint |
| Structure.BrickStructure.BrickFloats | src/brickgpt/data/brick_structure.py:181-188 | the brick is off the ground with nothing below it and, unless on the top layer, nothing above it |
| Structure.BrickStructure.HasFloatingBricks | src/brickgpt/data/brick_structure.py:178-179 | some listed brick floats |
| Structure.BrickStructure.StabilityScores | src/brickgpt/data/brick_structure.py:195-202 | refuses on collision, then on bounds, else scores the structure's JSON object |
| Structure.BrickStructure.ConnectivityScores | src/brickgpt/data/brick_structure.py:209-215 | refuses on collision, then on bounds, else scores the structure |
| Structure.BrickStructure.IsStable | src/brickgpt/data/brick_structure.py:190-193 | the grid-based verdict equals the list-based one about which Gates.StableIff is proved |
| Structure.BrickStructure.IsConnected | src/brickgpt/data/brick_structure.py:204-207 | the grid-based verdict equals the list-based one about which Gates.ConnectedIff is proved |
| Structure.BrickStructure.Equals | src/brickgpt/data/brick_structure.py:142-145 | structures are equal exactly when their brick lists are |
| Structure.EqualStructuresShareGrid | src/brickgpt/data/brick_structure.py:142-145 | equal structures of the same world size have the same grid, so comparing lists loses nothing |
| Structure.BrickStructure.ToTxt | src/brickgpt/data/brick_structure.py:150-151 | with non-negative fields, from_txt of the text gives the brick list back |
| Structure.BrickStructure.ToJson | src/brickgpt/data/brick_structure.py:147-148 | succeeds exactly when every brick is catalogued, and from_json of the object gives the brick list back |
| Structure.BrickStructure.ToLdr | src/brickgpt/data/brick_structure.py:153-154 | succeeds exactly when every brick has a part, and from_ldr gives the brick list back |
| Structure.BrickStructure.Build | src/brickgpt/data/brick_structure.py:220 | a decoding error propagates, an unplaceable brick is IndexError, otherwise a fresh valid structure of world 20 holding the decoded bricks |
| Structure.BrickStructure.FromTxt | src/brickgpt/data/brick_structure.py:222-227 | a decoding error propagates; decoded bricks the grid cannot hold give IndexError; otherwise the result is a fresh valid structure of world 20 holding exactly the decoded bricks |
| Structure.BrickStructure.FromJson | src/brickgpt/data/brick_structure.py:217-220 | a decoding error propagates; decoded bricks the grid cannot hold give IndexError; otherwise the result is a fresh valid structure of world 20 holding exactly the digit-keyed bricks in order |
| Structure.BrickStructure.FromLdr | src/brickgpt/data/brick_structure.py:229-234 | a decoding error propagates; decoded bricks the grid cannot hold give IndexError; otherwise the result is a fresh valid structure of world 20 holding exactly the bricks of the non-blank step pieces |
| StructureVectors.BrickVector | tests/test_brick_structure.py:6-14 | 6x2 (0,1,2) has id 3, ori 1, area 12 and slices (0:6, 1:3) and (0:6, 1:3, 2) |
| StructureVectors.BrickTxtVector | tests/test_brick_structure.py:7-16 | to_txt of 6x2 (0,1,2) is `6x2 (0,1,2)\n` and from_txt reads it back |
| StructureVectors.TxtVector | tests/test_brick_structure.py:19-32 | the two-brick text decodes to the pair and the pair encodes to it |
| StructureVectors.JsonVector | tests/test_brick_structure.py:19-31 | the two-brick object decodes to the pair and the pair encodes to it |
| StructureVectors.LdrVector | tests/test_brick_structure.py:19-33 | the two-brick LDraw text decodes to the pair and the pair encodes to it |
| StructureVectors.VectorsAgree | tests/test_brick_structure.py:35-37 | the three texts decode to the same brick list, which is not empty |
| StructureVectors.BuildAgree | src/brickgpt/data/brick_structure.py:142-145 | structures built by from_txt, from_json and from_ldr from inputs decoding to the same placeable list are equal, and equal to the empty structure only when the list is empty |
| StructureVectors.BuiltVectorsAgree | tests/test_brick_structure.py:28-37 | the class methods build two-brick structures of world 20 from the three test inputs; they are equal to each other and not to `BrickStructure([])` |

## Left out

- Unicode digits and numerals: `\d`, `isdigit` and `int` accept non-ASCII digits in Python. The model takes ASCII digits only.
- BrickLdraw.Coordinates: decimal tokens are read as exact reals and `x0 / 20 - h * 0.5` is computed exactly, while Python rounds each token to the nearest double and computes in doubles. A token with more than about 15 significant digits can therefore truncate to a different cell than Python's, e.g. x0 = `39.999999999999999999` (Python reads 40.0, giving x = 1 for a 2-wide brick; the model gives 0). Exact for everything to_ldr writes.
- Strings.ParseFloatIntStr: states `float(str(n)) == n` for every integer n. In Python the value is rounded to a double, so it holds for |n| <= 2^53 and fails for some larger n (e.g. float('9007199254740993') is 9007199254740992.0).
- Float text in from_ldr: the exponent form, underscores, `inf`/`nan` and other spellings Python's `float` accepts are not modelled. The model reads optionally signed decimals with an optional fraction.
- Float printing: to_ldr prints LDraw x and z as Python's float repr. The model writes them as the integer followed by `.0`, which is that repr only below 1e16 in magnitude.
- Long numerals: CPython limits int/str conversion to 4300 digits by default, so `int()` in from_txt and `str()` in to_txt raise ValueError on longer numerals. BrickText.FromTxt and BrickText.ToTxt have no such limit.
- Non-integer base_height: `base_height` is modelled as an integer, its default 0 included. A fractional height would print y as a general float, which is not modelled.
- Structure.BrickStructure.AddBrick: requires the brick to be placeable (`Grid.Placeable`: non-negative x and y, 0 <= z < world_dim). In numpy, a negative slice start counts from the far end of the axis, and a layer -world_dim <= z < 0 wraps to layer z + world_dim, so add_brick succeeds there with a grid the model does not describe; only z >= world_dim or z < -world_dim raises IndexError. In the source the brick is appended (line 157) before the grid update (line 158) raises, so a caught IndexError leaves the brick listed with none of its cells counted; the model does not capture that half-updated state.
- Structure.BrickStructure.Build: returns `IndexError` for every decoded brick that is not placeable, where numpy raises only for a layer outside [-20, 20) and otherwise builds with wrapped indices (Structure.BrickStructure.FromTxt, FromJson and FromLdr inherit this).
- Structure.BrickStructure.BrickCollides and Structure.BrickStructure.BrickFloats: require a placeable brick, for the same reason.
- The ground-level warning in `__init__`: it has no effect on the state, so it is not modelled.
- `__repr__` and `__len__`: they only display the text form or return the list length.
- `__eq__` on a non-structure: the `NotImplemented` case is not expressible with a typed parameter and is not modelled.
- The stability and connectivity scorers: they are external code (`brickgpt.stability_analysis` is not part of this model) and enter as function parameters. Hence the test vectors that depend on their values are not proved: "two ground bricks are stable" and "are connected" (tests lines 62 and 72), and "`2x6 (0,0,1)` under `2x6 (0,0,2)` is not connected" (line 73), which neither floats nor collides (`Grid.FloatingVectors`) and so is decided by the scorer. Only the cases the gates decide without scoring are proved.
- The scorer's `StabilityConfig` is not modelled; only the world size is handed over.
- NaN scores are not modelled; scores are reals.
- The brick catalog: `brick_library` is not part of this model. It is a parameter with the `WellFormed` assumptions, and the one sample entry the tests name (id 3, 2x6, `2456.DAT`).
- Malformed JSON: values of the wrong type and missing record fields are excluded by the `BrickRecord` type. A missing catalog id is modelled.
- Structure.BrickStructure.ToTxt: the round trip is stated only for bricks whose fields are all non-negative. A negative field prints a minus sign that the pattern rejects (`BrickText.TxtRoundTrip` proves that case is a format error).
- Structure.BrickStructure.Equals: in the source, equality ignores `world_dim`. The model shows that equal lists give equal grids when the world sizes agree (`Structure.EqualStructuresShareGrid`).
- Python's dict and object identity are abstracted:
  - JSON objects are lists of key/record pairs in insertion order;
  - duplicate-key dictionaries are not modelled.
