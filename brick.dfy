/** A 1-unit-tall rectangular brick and its derived geometry. */
module Bricks {
  import opened Results
  import opened BrickLibrary

  /** An immutable brick of footprint h x w whose minimal corner is at (x, y) on layer z. */
  datatype Brick = Brick(h: int, w: int, x: int, y: int, z: int)

  /** A half-open index range [start, stop), as Python's slice(start, stop). */
  datatype Range = Range(start: int, stop: int)

  /** Orientation: 1 when the first footprint axis is the longer one. */
  function Ori(b: Brick): (o: int)
    ensures o == 0 || o == 1
    ensures o == 1 <==> b.h > b.w
  {
    if b.h > b.w then 1 else 0
  }

  function Area(b: Brick): int {
    b.h * b.w
  }

  /** The footprint as a pair of slices. */
  function Slice2d(b: Brick): (Range, Range) {
    (Range(b.x, b.x + b.h), Range(b.y, b.y + b.w))
  }

  /** The footprint slices extended by the layer index. */
  function Slice(b: Brick): (Range, Range, int) {
    (Slice2d(b).0, Slice2d(b).1, b.z)
  }

  /** The voxel (i, j, k) lies in the brick's volume slice. */
  predicate Covers(b: Brick, i: int, j: int, k: int) {
    var (sx, sy, sz) := Slice(b);
    sx.start <= i < sx.stop && sy.start <= j < sy.stop && k == sz
  }

  /** The brick id of the brick's dimensions; fails for dimensions the catalog does not know. */
  function BrickId(cat: Catalog, b: Brick): Option<int> {
    DimsToId(cat, b.h, b.w)
  }

  function PartId(cat: Catalog, b: Brick): Option<string> {
    match BrickId(cat, b)
    case None => None
    case Some(id) => IdToPart(cat, id)
  }

  /** The dataclass order: lexicographic on (h, w, x, y, z). */
  predicate Less(a: Brick, b: Brick) {
    a.h < b.h || (a.h == b.h && (a.w < b.w || (a.w == b.w && (a.x < b.x
      || (a.x == b.x && (a.y < b.y || (a.y == b.y && a.z < b.z)))))))
  }

  lemma LessIsStrictTotalOrder(a: Brick, b: Brick, c: Brick)
    ensures !Less(a, a)
    ensures Less(a, b) && Less(b, c) ==> Less(a, c)
    ensures a == b || Less(a, b) || Less(b, a)
    ensures !(Less(a, b) && Less(b, a))
  {
  }

  /** The volume slice is the footprint [x, x+h) x [y, y+w) on layer z. */
  lemma CoversIsFootprint(b: Brick, i: int, j: int, k: int)
    ensures Covers(b, i, j, k) <==> b.x <= i < b.x + b.h && b.y <= j < b.y + b.w && k == b.z
  {
  }

  /** Swapping the footprint axes of a non-square brick flips its orientation and keeps its area. */
  lemma SwapFlipsOri(b: Brick)
    requires b.h != b.w
    ensures Ori(Brick(b.w, b.h, b.x, b.y, b.z)) == 1 - Ori(b)
    ensures Area(Brick(b.w, b.h, b.x, b.y, b.z)) == Area(b)
  {
  }

  /** Equal dimensions in either order select the same catalog id. */
  lemma BrickIdSymmetric(cat: Catalog, b: Brick)
    ensures BrickId(cat, b) == BrickId(cat, Brick(b.w, b.h, b.x, b.y, b.z))
  {
    DimsToIdSymmetric(cat, b.h, b.w);
  }
}
