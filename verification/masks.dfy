/**
 * Mask compositing (`Airtiler._update_mask`).
 *
 * A mask is a square grid of unsigned bytes. Rasterising a polygon's exterior
 * ring is done by an image library and is not modelled: each polygon arrives
 * with the two pixel sets that library would draw, its `outline` (ring drawn
 * with colour 255, interior 0) and its `fill` (interior 255, ring 0). What is
 * modelled is how those sets are composed into the mask and how the geometry
 * kinds are dispatched.
 *
 * Every pixel evolves independently of every other, so the specification is a
 * function of one pixel's old value: `PaintAll`.
 */
module Masks {

  /** Side length of every mask, `IMAGE_WIDTH`. */
  const ImageWidth: int := 256

  /** A pixel position, (row, column). */
  type Cell = (int, int)

  /**
   * What clipping one way to the tile rectangle can produce. Only `Polygon`
   * and `MultiPolygon` are painted; any other kind (a line, a point, a
   * collection, ...) is skipped.
   */
  datatype Geometry =
    | Polygon(outline: set<Cell>, fill: set<Cell>)
    | MultiPolygon(parts: seq<Geometry>)
    | OtherGeometry

  /**
   * One polygon's effect on one pixel whose value is `v`: the outline step
   * (overwrite with 255 in merged mode, XOR 255 in separated mode) followed by
   * the fill step (XOR 255 in both modes).
   */
  function Composite(v: bv8, c: Cell, outline: set<Cell>, fill: set<Cell>, separate: bool): bv8 {
    var afterOutline := if c !in outline then v else if separate then v ^ 0xFF else 0xFF;
    if c in fill then afterOutline ^ 0xFF else afterOutline
  }

  /**
   * The value of pixel `c`, starting from `v`, after `polygons` have been
   * painted in order with the given mode. The parts of a MultiPolygon are
   * painted in separated mode whatever the caller asked for.
   */
  function PaintAll(v: bv8, c: Cell, polygons: seq<Geometry>, separate: bool): bv8
    decreases polygons
  {
    if polygons == [] then v
    else
      var v' := match polygons[0]
        case Polygon(outline, fill) => Composite(v, c, outline, fill, separate)
        case MultiPolygon(parts) => PaintAll(v, c, parts, true)
        case OtherGeometry => v;
      PaintAll(v', c, polygons[1..], separate)
  }

  /** Painting `a` and then `b` is painting `a + b`. */
  lemma PaintAllAppend(v: bv8, c: Cell, a: seq<Geometry>, b: seq<Geometry>, separate: bool)
    ensures PaintAll(v, c, a + b, separate) == PaintAll(PaintAll(v, c, a, separate), c, b, separate)
  {
    PaintAllIsFlat(v, c, a + b, separate);
    PaintAllIsFlat(v, c, a, separate);
    PaintAllIsFlat(PaintAll(v, c, a, separate), c, b, separate);
    FlattenAppend(a, b, separate);
    PaintStrokesAppend(v, c, Flatten(a, separate), Flatten(b, separate));
  }

  /* ------------------------------------------------------------------ */
  /* A flat reference definition: the polygons actually drawn, in order */
  /* ------------------------------------------------------------------ */

  /** One call of the compositing step: a polygon's pixel sets and the mode it is drawn in. */
  datatype Stroke = Stroke(outline: set<Cell>, fill: set<Cell>, separate: bool)

  /** The polygons a list of geometries draws, MultiPolygons expanded in place, other kinds dropped. */
  function Flatten(polygons: seq<Geometry>, separate: bool): seq<Stroke>
    decreases polygons
  {
    if polygons == [] then []
    else
      var head := match polygons[0]
        case Polygon(outline, fill) => [Stroke(outline, fill, separate)]
        case MultiPolygon(parts) => Flatten(parts, true)
        case OtherGeometry => [];
      head + Flatten(polygons[1..], separate)
  }

  /** Pixel `c` after the strokes are composed in order. */
  function PaintStrokes(v: bv8, c: Cell, strokes: seq<Stroke>): bv8
    decreases strokes
  {
    if strokes == [] then v
    else PaintStrokes(Composite(v, c, strokes[0].outline, strokes[0].fill, strokes[0].separate), c, strokes[1..])
  }

  /** Whether some stroke's outline or fill contains `c`. */
  predicate Covered(c: Cell, strokes: seq<Stroke>) {
    exists k :: 0 <= k < |strokes| && (c in strokes[k].outline || c in strokes[k].fill)
  }

  lemma {:induction false} PaintStrokesAppend(v: bv8, c: Cell, s: seq<Stroke>, t: seq<Stroke>)
    ensures PaintStrokes(v, c, s + t) == PaintStrokes(PaintStrokes(v, c, s), c, t)
    decreases s
  {
    if s != [] {
      assert (s + t)[0] == s[0];
      assert (s + t)[1..] == s[1..] + t;
      PaintStrokesAppend(Composite(v, c, s[0].outline, s[0].fill, s[0].separate), c, s[1..], t);
    } else {
      assert s + t == t;
    }
  }

  lemma {:induction false} FlattenAppend(a: seq<Geometry>, b: seq<Geometry>, separate: bool)
    ensures Flatten(a + b, separate) == Flatten(a, separate) + Flatten(b, separate)
    decreases |a|
  {
    if a == [] {
      assert a + b == b;
    } else {
      assert (a + b)[0] == a[0];
      assert (a + b)[1..] == a[1..] + b;
      FlattenAppend(a[1..], b, separate);
    }
  }

  /**
   * Painting a geometry list is the same as composing, one after the other,
   * the polygons it contains with MultiPolygon parts forced to separated mode.
   */
  lemma {:induction false} PaintAllIsFlat(v: bv8, c: Cell, polygons: seq<Geometry>, separate: bool)
    ensures PaintAll(v, c, polygons, separate) == PaintStrokes(v, c, Flatten(polygons, separate))
    decreases polygons
  {
    if polygons != [] {
      var rest := Flatten(polygons[1..], separate);
      match polygons[0]
      case Polygon(outline, fill) =>
        var s := Stroke(outline, fill, separate);
        assert Flatten(polygons, separate) == [s] + rest;
        PaintAllIsFlat(Composite(v, c, outline, fill, separate), c, polygons[1..], separate);
        PaintStrokesAppend(v, c, [s], rest);
      case MultiPolygon(parts) =>
        PaintAllIsFlat(v, c, parts, true);
        PaintAllIsFlat(PaintAll(v, c, parts, true), c, polygons[1..], separate);
        PaintStrokesAppend(v, c, Flatten(parts, true), rest);
      case OtherGeometry =>
        assert Flatten(polygons, separate) == rest;
        PaintAllIsFlat(v, c, polygons[1..], separate);
    }
  }

  /** With separation on, every stroke produced is in separated mode. */
  lemma {:induction false} AllSeparated(polygons: seq<Geometry>, k: nat)
    requires k < |Flatten(polygons, true)|
    ensures Flatten(polygons, true)[k].separate
    decreases polygons
  {
    var rest := Flatten(polygons[1..], true);
    var head := match polygons[0]
      case Polygon(outline, fill) => [Stroke(outline, fill, true)]
      case MultiPolygon(parts) => Flatten(parts, true)
      case OtherGeometry => [];
    if k < |head| {
      match polygons[0]
      case MultiPolygon(parts) => AllSeparated(parts, k);
      case Polygon(_, _) =>
    } else {
      AllSeparated(polygons[1..], k - |head|);
    }
  }

  /** A pixel that no drawn outline or fill covers keeps its value, in both modes. */
  lemma {:induction false} UncoveredStrokesKeep(v: bv8, c: Cell, strokes: seq<Stroke>)
    requires !Covered(c, strokes)
    ensures PaintStrokes(v, c, strokes) == v
    decreases strokes
  {
    if strokes != [] {
      assert !Covered(c, strokes[1..]) by {
        forall k | 0 <= k < |strokes| - 1 ensures c !in strokes[1..][k].outline && c !in strokes[1..][k].fill {
          assert strokes[1..][k] == strokes[k + 1];
        }
      }
      UncoveredStrokesKeep(v, c, strokes[1..]);
    }
  }

  /**
   * A pixel outside every outline and fill drawn for `polygons` is left
   * unchanged, in both modes.
   */
  lemma UncoveredPixelKept(v: bv8, c: Cell, polygons: seq<Geometry>, separate: bool)
    requires !Covered(c, Flatten(polygons, separate))
    ensures PaintAll(v, c, polygons, separate) == v
  {
    PaintAllIsFlat(v, c, polygons, separate);
    UncoveredStrokesKeep(v, c, Flatten(polygons, separate));
  }

  /** `v` inverted (XOR 255) when `odd` holds, otherwise `v`. */
  function Toggled(v: bv8, odd: bool): bv8 {
    if odd then v ^ 0xFF else v
  }

  lemma ToggledTwice(v: bv8, a: bool, b: bool)
    ensures Toggled(Toggled(v, a), b) == Toggled(v, a != b)
  {
  }

  /** In separated mode one polygon inverts a pixel exactly when it lies in just one of the outline and the fill. */
  lemma CompositeSeparated(v: bv8, c: Cell, outline: set<Cell>, fill: set<Cell>)
    ensures Composite(v, c, outline, fill, true) == Toggled(v, (c in outline) != (c in fill))
  {
    ToggledTwice(v, c in outline, c in fill);
  }

  /** Whether `c` is covered an odd number of times by the strokes' outline and fill sets. */
  function OddHits(c: Cell, strokes: seq<Stroke>): bool {
    if strokes == [] then false
    else ((c in strokes[0].outline) != (c in strokes[0].fill)) != OddHits(c, strokes[1..])
  }

  /**
   * In separated mode a pixel is inverted exactly when it is covered an odd
   * number of times: composition is a parity count.
   */
  lemma {:induction false} SeparatedIsParity(v: bv8, c: Cell, strokes: seq<Stroke>)
    requires forall k :: 0 <= k < |strokes| ==> strokes[k].separate
    ensures PaintStrokes(v, c, strokes) == Toggled(v, OddHits(c, strokes))
    decreases strokes
  {
    if strokes != [] {
      var s := strokes[0];
      var v' := Composite(v, c, s.outline, s.fill, s.separate);
      assert s.separate;
      CompositeSeparated(v, c, s.outline, s.fill);
      SeparatedIsParity(v', c, strokes[1..]);
      ToggledTwice(v, (c in s.outline) != (c in s.fill), OddHits(c, strokes[1..]));
    }
  }

  /**
   * Separated mode does not depend on the order of the geometries: painting
   * `a` then `b` gives the same pixel as painting `b` then `a`.
   */
  lemma SeparatedCommutes(v: bv8, c: Cell, a: seq<Geometry>, b: seq<Geometry>)
    ensures PaintAll(PaintAll(v, c, a, true), c, b, true) == PaintAll(PaintAll(v, c, b, true), c, a, true)
  {
    var fa, fb := Flatten(a, true), Flatten(b, true);
    forall k | 0 <= k < |fa| ensures fa[k].separate { AllSeparated(a, k); }
    forall k | 0 <= k < |fb| ensures fb[k].separate { AllSeparated(b, k); }
    PaintAllIsFlat(v, c, a, true);
    PaintAllIsFlat(v, c, b, true);
    PaintAllIsFlat(PaintAll(v, c, a, true), c, b, true);
    PaintAllIsFlat(PaintAll(v, c, b, true), c, a, true);
    SeparatedIsParity(v, c, fa);
    SeparatedIsParity(v, c, fb);
    SeparatedIsParity(PaintAll(v, c, a, true), c, fb);
    SeparatedIsParity(PaintAll(v, c, b, true), c, fa);
    ToggledTwice(v, OddHits(c, fa), OddHits(c, fb));
    ToggledTwice(v, OddHits(c, fb), OddHits(c, fa));
  }

  /** In separated mode, painting the same geometries a second time restores every pixel. */
  lemma SeparatedTwiceRestores(v: bv8, c: Cell, polygons: seq<Geometry>)
    ensures PaintAll(PaintAll(v, c, polygons, true), c, polygons, true) == v
  {
    var f := Flatten(polygons, true);
    forall k | 0 <= k < |f| ensures f[k].separate { AllSeparated(polygons, k); }
    PaintAllIsFlat(v, c, polygons, true);
    PaintAllIsFlat(PaintAll(v, c, polygons, true), c, polygons, true);
    SeparatedIsParity(v, c, f);
    SeparatedIsParity(PaintAll(v, c, polygons, true), c, f);
    ToggledTwice(v, OddHits(c, f), OddHits(c, f));
  }

  /** A pixel that is 0 or 255 stays 0 or 255, in both modes, whatever is painted. */
  lemma {:induction false} BinaryPreserved(v: bv8, c: Cell, polygons: seq<Geometry>, separate: bool)
    requires v == 0 || v == 0xFF
    ensures var r := PaintAll(v, c, polygons, separate); r == 0 || r == 0xFF
    decreases polygons
  {
    if polygons != [] {
      match polygons[0]
      case Polygon(outline, fill) =>
        BinaryPreserved(Composite(v, c, outline, fill, separate), c, polygons[1..], separate);
      case MultiPolygon(parts) =>
        BinaryPreserved(v, c, parts, true);
        BinaryPreserved(PaintAll(v, c, parts, true), c, polygons[1..], separate);
      case OtherGeometry =>
        BinaryPreserved(v, c, polygons[1..], separate);
    }
  }

  /**
   * One polygon in merged mode: an outline pixel outside the fill ends at 255,
   * a fill pixel outside the outline is inverted, a pixel in both ends at 0 and
   * any other pixel is unchanged.
   */
  lemma MergedPolygon(v: bv8, c: Cell, outline: set<Cell>, fill: set<Cell>)
    ensures var r := PaintAll(v, c, [Polygon(outline, fill)], false);
      && (c in outline && c !in fill ==> r == 0xFF)
      && (c !in outline && c in fill ==> r == v ^ 0xFF)
      && (c in outline && c in fill ==> r == 0)
      && (c !in outline && c !in fill ==> r == v)
  {
    assert [Polygon(outline, fill)][1..] == [];
  }

  /**
   * Merged mode does not merge overlapping interiors: a pixel inside the fill
   * of two polygons and on neither outline is inverted twice and so is back
   * at its old value.
   */
  lemma MergedOverlapCancels(v: bv8, c: Cell, p: Geometry, q: Geometry)
    requires p.Polygon? && q.Polygon?
    requires c in p.fill && c !in p.outline && c in q.fill && c !in q.outline
    ensures PaintAll(v, c, [p, q], false) == v
  {
    var w := Composite(v, c, p.outline, p.fill, false);
    assert w == v ^ 0xFF;
    assert [p, q][1..] == [q];
    assert [q][1..] == [];
    assert PaintAll(v, c, [p, q], false) == PaintAll(w, c, [q], false);
    assert PaintAll(w, c, [q], false) == Composite(w, c, q.outline, q.fill, false);
    assert (v ^ 0xFF) ^ 0xFF == v;
  }

  /**
   * Geometry dispatch: a MultiPolygon paints its parts in separated mode
   * whatever mode was requested, and any kind other than Polygon and
   * MultiPolygon is skipped.
   */
  lemma GeometryDispatch(v: bv8, c: Cell, g: Geometry, rest: seq<Geometry>, separate: bool)
    ensures g.MultiPolygon? ==>
      PaintAll(v, c, [g] + rest, separate) == PaintAll(PaintAll(v, c, g.parts, true), c, rest, separate)
    ensures g.OtherGeometry? ==> PaintAll(v, c, [g] + rest, separate) == PaintAll(v, c, rest, separate)
  {
    assert ([g] + rest)[0] == g;
    assert ([g] + rest)[1..] == rest;
  }

  /** Painting a single geometry. */
  lemma PaintSingle(v: bv8, c: Cell, g: Geometry, separate: bool)
    ensures g.Polygon? ==> PaintAll(v, c, [g], separate) == Composite(v, c, g.outline, g.fill, separate)
    ensures g.MultiPolygon? ==> PaintAll(v, c, [g], separate) == PaintAll(v, c, g.parts, true)
    ensures g.OtherGeometry? ==> PaintAll(v, c, [g], separate) == v
  {
    assert [g][1..] == [];
  }

  /** Painting from position `i` on is painting `polygons[i]`, then the rest. */
  lemma PaintAllStep(v: bv8, c: Cell, polygons: seq<Geometry>, i: nat, separate: bool)
    requires i < |polygons|
    ensures PaintAll(v, c, polygons[i..], separate) == PaintAll(PaintAll(v, c, [polygons[i]], separate), c, polygons[i + 1..], separate)
  {
    assert polygons[i..] == [polygons[i]] + polygons[i + 1..];
    PaintAllAppend(v, c, [polygons[i]], polygons[i + 1..], separate);
  }

  /* ------------------------------------------------------------------ */
  /* The in-place operations on the mask array                          */
  /* ------------------------------------------------------------------ */

  /**
   * `mask[area] = 255` when `overwrite`, otherwise `mask[area] ^= 255`;
   * pixels outside `area` are untouched.
   */
  method PaintArea(mask: array2<bv8>, area: set<Cell>, overwrite: bool)
    modifies mask
    ensures forall r, c :: 0 <= r < mask.Length0 && 0 <= c < mask.Length1 ==>
      mask[r, c] == if (r, c) !in area then old(mask[r, c]) else if overwrite then 0xFF else old(mask[r, c]) ^ 0xFF
  {
    for r := 0 to mask.Length0
      invariant forall i, j :: 0 <= i < mask.Length0 && 0 <= j < mask.Length1 ==>
        mask[i, j] == if i >= r || (i, j) !in area then old(mask[i, j])
                      else if overwrite then 0xFF else old(mask[i, j]) ^ 0xFF
    {
      for c := 0 to mask.Length1
        invariant forall i, j :: 0 <= i < mask.Length0 && 0 <= j < mask.Length1 ==>
          mask[i, j] == if i > r || (i == r && j >= c) || (i, j) !in area then old(mask[i, j])
                        else if overwrite then 0xFF else old(mask[i, j]) ^ 0xFF
      {
        if (r, c) in area {
          mask[r, c] := if overwrite then 0xFF else mask[r, c] ^ 0xFF;
        }
      }
    }
  }

  /** One polygon: its outline step, then its fill step. */
  method PaintPolygon(mask: array2<bv8>, outline: set<Cell>, fill: set<Cell>, separate: bool)
    modifies mask
    ensures forall r, c :: 0 <= r < mask.Length0 && 0 <= c < mask.Length1 ==>
      mask[r, c] == Composite(old(mask[r, c]), (r, c), outline, fill, separate)
  {
    PaintArea(mask, outline, !separate);
    PaintArea(mask, fill, false);
  }

  /**
   * Paints `polygons` onto `mask` in order: every pixel ends at the value
   * `PaintAll` gives for its old value.
   */
  method UpdateMask(mask: array2<bv8>, polygons: seq<Geometry>, separate: bool)
    modifies mask
    ensures forall r, c :: 0 <= r < mask.Length0 && 0 <= c < mask.Length1 ==>
      mask[r, c] == PaintAll(old(mask[r, c]), (r, c), polygons, separate)
    decreases polygons
  {
    for i := 0 to |polygons|
      invariant forall r, c :: 0 <= r < mask.Length0 && 0 <= c < mask.Length1 ==>
        PaintAll(mask[r, c], (r, c), polygons[i..], separate) == PaintAll(old(mask[r, c]), (r, c), polygons, separate)
    {
      label Before:
      var g := polygons[i];
      match g
      case MultiPolygon(parts) =>
        UpdateMask(mask, parts, true);
        forall r, c | 0 <= r < mask.Length0 && 0 <= c < mask.Length1
          ensures mask[r, c] == PaintAll(old@Before(mask[r, c]), (r, c), [g], separate)
        {
          PaintSingle(old@Before(mask[r, c]), (r, c), g, separate);
        }
      case OtherGeometry =>
        forall r, c | 0 <= r < mask.Length0 && 0 <= c < mask.Length1
          ensures mask[r, c] == PaintAll(old@Before(mask[r, c]), (r, c), [g], separate)
        {
          PaintSingle(old@Before(mask[r, c]), (r, c), g, separate);
        }
      case Polygon(outline, fill) =>
        PaintPolygon(mask, outline, fill, separate);
        forall r, c | 0 <= r < mask.Length0 && 0 <= c < mask.Length1
          ensures mask[r, c] == PaintAll(old@Before(mask[r, c]), (r, c), [g], separate)
        {
          PaintSingle(old@Before(mask[r, c]), (r, c), g, separate);
        }
      forall r, c | 0 <= r < mask.Length0 && 0 <= c < mask.Length1
        ensures PaintAll(mask[r, c], (r, c), polygons[i + 1..], separate) == PaintAll(old(mask[r, c]), (r, c), polygons, separate)
      {
        PaintAllStep(old@Before(mask[r, c]), (r, c), polygons, i, separate);
      }
    }
  }

  /** `mask.max()`: the largest byte of a non-empty mask. */
  method MaxValue(mask: array2<bv8>) returns (m: bv8)
    requires 0 < mask.Length0 && 0 < mask.Length1
    ensures forall r, c :: 0 <= r < mask.Length0 && 0 <= c < mask.Length1 ==> mask[r, c] <= m
    ensures exists r, c :: 0 <= r < mask.Length0 && 0 <= c < mask.Length1 && mask[r, c] == m
  {
    m := mask[0, 0];
    ghost var wr, wc := 0, 0;
    for r := 0 to mask.Length0
      invariant 0 <= wr < mask.Length0 && 0 <= wc < mask.Length1 && mask[wr, wc] == m
      invariant forall i, j :: 0 <= i < r && 0 <= j < mask.Length1 ==> mask[i, j] <= m
    {
      for c := 0 to mask.Length1
        invariant 0 <= wr < mask.Length0 && 0 <= wc < mask.Length1 && mask[wr, wc] == m
        invariant forall i, j :: 0 <= i < mask.Length0 && 0 <= j < mask.Length1 && (i < r || (i == r && j < c)) ==> mask[i, j] <= m
      {
        if mask[r, c] > m {
          m := mask[r, c];
          wr, wc := r, c;
        }
      }
    }
  }
}
