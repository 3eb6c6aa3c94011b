/**
 * The brick catalog: the static mapping between a brick's dimensions, its
 * numeric brick id and its LDraw part id. Its contents live outside the
 * modelled code, so the catalog is a parameter, constrained by `WellFormed`.
 */
module BrickLibrary {
  import opened Results
  import opened Strings

  /** One catalog entry; dimensions are stored in orientation-0 order (h <= w). */
  datatype Entry = Entry(id: int, h: int, w: int, part: string)

  type Catalog = seq<Entry>

  /** The entry describes an h x w brick in either orientation. */
  predicate HasDims(e: Entry, h: int, w: int) {
    (e.h == h && e.w == w) || (e.h == w && e.w == h)
  }

  /** A part id is a single whitespace-free token that cannot start an LDraw `0 STEP` marker. */
  predicate IsPartName(p: string) {
    IsToken(p) && 'S' !in p
  }

  predicate WellFormed(cat: Catalog) {
    (forall i | 0 <= i < |cat| :: 1 <= cat[i].h <= cat[i].w && IsPartName(cat[i].part))
    && (forall i, j | 0 <= i < j < |cat| ::
          cat[i].id != cat[j].id && cat[i].part != cat[j].part && !HasDims(cat[j], cat[i].h, cat[i].w))
  }

  /** dimensions_to_brick_id(h, w): fails for dimensions not in the catalog. */
  function DimsToId(cat: Catalog, h: int, w: int): (r: Option<int>)
    ensures r.Some? ==> exists i | 0 <= i < |cat| :: cat[i].id == r.value && HasDims(cat[i], h, w)
    ensures r.None? <==> forall i | 0 <= i < |cat| :: !HasDims(cat[i], h, w)
  {
    if cat == [] then None
    else if HasDims(cat[0], h, w) then Some(cat[0].id)
    else
      var r := DimsToId(cat[1..], h, w);
      assert forall i | 1 <= i < |cat| :: cat[i] == cat[1..][i - 1];
      r
  }

  /** brick_id_to_dimensions(id): the orientation-0 dimensions of a known brick id. */
  function IdToDims(cat: Catalog, id: int): (r: Option<(int, int)>)
    ensures r.Some? ==> exists i | 0 <= i < |cat| :: cat[i].id == id && r.value == (cat[i].h, cat[i].w)
    ensures r.None? <==> forall i | 0 <= i < |cat| :: cat[i].id != id
  {
    if cat == [] then None
    else if cat[0].id == id then Some((cat[0].h, cat[0].w))
    else
      var r := IdToDims(cat[1..], id);
      assert forall i | 1 <= i < |cat| :: cat[i] == cat[1..][i - 1];
      r
  }

  /** brick_id_to_part_id(id) */
  function IdToPart(cat: Catalog, id: int): (r: Option<string>)
    ensures r.Some? ==> exists i | 0 <= i < |cat| :: cat[i].id == id && r.value == cat[i].part
    ensures r.None? <==> forall i | 0 <= i < |cat| :: cat[i].id != id
  {
    if cat == [] then None
    else if cat[0].id == id then Some(cat[0].part)
    else
      var r := IdToPart(cat[1..], id);
      assert forall i | 1 <= i < |cat| :: cat[i] == cat[1..][i - 1];
      r
  }

  /** part_id_to_brick_id(part) */
  function PartToId(cat: Catalog, part: string): (r: Option<int>)
    ensures r.Some? ==> exists i | 0 <= i < |cat| :: cat[i].part == part && r.value == cat[i].id
    ensures r.None? <==> forall i | 0 <= i < |cat| :: cat[i].part != part
  {
    if cat == [] then None
    else if cat[0].part == part then Some(cat[0].id)
    else
      var r := PartToId(cat[1..], part);
      assert forall i | 1 <= i < |cat| :: cat[i] == cat[1..][i - 1];
      r
  }

  /** In a well-formed catalog every lookup that names entry i answers with entry i. */
  lemma LookupEntry(cat: Catalog, i: int)
    requires WellFormed(cat) && 0 <= i < |cat|
    ensures DimsToId(cat, cat[i].h, cat[i].w) == Some(cat[i].id)
    ensures DimsToId(cat, cat[i].w, cat[i].h) == Some(cat[i].id)
    ensures IdToDims(cat, cat[i].id) == Some((cat[i].h, cat[i].w))
    ensures IdToPart(cat, cat[i].id) == Some(cat[i].part)
    ensures PartToId(cat, cat[i].part) == Some(cat[i].id)
  {
    assert HasDims(cat[i], cat[i].h, cat[i].w) && HasDims(cat[i], cat[i].w, cat[i].h);
  }

  /** The id of a pair of dimensions does not depend on their order. */
  lemma {:induction false} DimsToIdSymmetric(cat: Catalog, h: int, w: int)
    ensures DimsToId(cat, h, w) == DimsToId(cat, w, h)
  {
    if cat != [] {
      DimsToIdSymmetric(cat[1..], h, w);
    }
  }

  /** Looking the id back up gives the dimensions sorted into orientation-0 order. */
  lemma IdToDimsOfDimsToId(cat: Catalog, h: int, w: int)
    requires WellFormed(cat) && DimsToId(cat, h, w).Some?
    ensures IdToDims(cat, DimsToId(cat, h, w).value) == Some(if h <= w then (h, w) else (w, h))
  {
    var i :| 0 <= i < |cat| && cat[i].id == DimsToId(cat, h, w).value && HasDims(cat[i], h, w);
    LookupEntry(cat, i);
  }

  /** The part id of a brick id leads back to the same brick id. */
  lemma PartToIdOfIdToPart(cat: Catalog, id: int)
    requires WellFormed(cat) && IdToPart(cat, id).Some?
    ensures PartToId(cat, IdToPart(cat, id).value) == Some(id)
  {
    var i :| 0 <= i < |cat| && cat[i].id == id && IdToPart(cat, id).value == cat[i].part;
    LookupEntry(cat, i);
  }

  /** Everything the lookups know about dimensions the catalog holds. */
  lemma KnownDims(cat: Catalog, h: int, w: int)
    requires WellFormed(cat) && DimsToId(cat, h, w).Some?
    ensures IdToPart(cat, DimsToId(cat, h, w).value).Some?
    ensures IsPartName(IdToPart(cat, DimsToId(cat, h, w).value).value)
    ensures PartToId(cat, IdToPart(cat, DimsToId(cat, h, w).value).value) == DimsToId(cat, h, w)
    ensures IdToDims(cat, DimsToId(cat, h, w).value) == Some(if h <= w then (h, w) else (w, h))
  {
    var i :| 0 <= i < |cat| && cat[i].id == DimsToId(cat, h, w).value && HasDims(cat[i], h, w);
    LookupEntry(cat, i);
  }

  /** Every part id of a well-formed catalog is a part name. */
  lemma PartIsName(cat: Catalog, id: int)
    requires WellFormed(cat) && IdToPart(cat, id).Some?
    ensures IsPartName(IdToPart(cat, id).value)
  {
  }

  /** The one catalog entry the repository's tests rely on: brick id 3 is the 2x6 brick, part "2456.DAT". */
  const Sample: Catalog := [Entry(3, 2, 6, "2456.DAT")]

  lemma SampleWellFormed()
    ensures WellFormed(Sample)
    ensures DimsToId(Sample, 2, 6) == Some(3) && DimsToId(Sample, 6, 2) == Some(3)
    ensures IdToDims(Sample, 3) == Some((2, 6))
    ensures IdToPart(Sample, 3) == Some("2456.DAT") && PartToId(Sample, "2456.DAT") == Some(3)
  {
    var p := "2456.DAT";
    assert IsToken(p) by {
      forall i | 0 <= i < |p| ensures !IsSpace(p[i]) {
        assert p[i] in "2456.DAT";
      }
    }
  }
}
