/**
 * Tile enumeration (`Airtiler._tiles_from_bbox`).
 *
 * Projecting a geographic point to the tile that contains it is a
 * floating-point library call; it is the parameter `tileFor`, which maps a
 * point and a zoom level to the tile's TMS (x, y). What is modelled is the
 * check of the bbox's form, which values are taken as the two corners, and
 * the enumeration of the inclusive rectangle of tiles between them.
 */
module Tiles {
  import opened Base

  datatype Point = Point(latitude: real, longitude: real)

  /** A tile of the TMS scheme, `Tile.from_tms(tms_x=x, tms_y=y, zoom=zoom)`. */
  datatype Tile = Tile(zoom: int, x: int, y: int)

  /**
   * A bounding box as it appears in the configuration: a dict with corner
   * keys (and possibly its own zoom levels), a list of coordinates, or some
   * other JSON value.
   */
  datatype Bbox =
    | DictBox(corners: map<string, real>, zoomLevels: Option<seq<int>>)
    | ListBox(coordinates: seq<real>)
    | OtherBox

  /**
   * The two points whose tiles span the rectangle. A dict gives the first
   * point from keys "tl" (latitude) and "tr" (longitude) and the second from
   * "bl" and "br"; a missing key fails with that key, looked up in that
   * order. A list gives (latitude, longitude) from indices 1 and 0, then from
   * 3 and 2; a shorter list fails. Anything else fails.
   */
  function CornerPoints(bbox: Bbox): (r: Result<(Point, Point)>)
    ensures bbox.OtherBox? ==> r == Err(BboxNotDictOrList)
    ensures bbox.ListBox? ==>
      var c := bbox.coordinates;
      if |c| < 4 then r == Err(IndexError)
      else r == Ok((Point(c[1], c[0]), Point(c[3], c[2])))
    ensures bbox.DictBox? ==>
      var m := bbox.corners;
      && (r.Ok? <==> {"tl", "tr", "bl", "br"} <= m.Keys)
      && (r.Ok? ==> r.value == (Point(m["tl"], m["tr"]), Point(m["bl"], m["br"])))
      && (r.Err? ==> r.error.MissingCornerKey? && r.error.key in {"tl", "tr", "bl", "br"} && r.error.key !in m)
  {
    match bbox
    case DictBox(m, _) =>
      if "tl" !in m then Err(MissingCornerKey("tl"))
      else if "tr" !in m then Err(MissingCornerKey("tr"))
      else if "bl" !in m then Err(MissingCornerKey("bl"))
      else if "br" !in m then Err(MissingCornerKey("br"))
      else Ok((Point(m["tl"], m["tr"]), Point(m["bl"], m["br"])))
    case ListBox(c) =>
      if |c| < 4 then Err(IndexError)
      else Ok((Point(c[1], c[0]), Point(c[3], c[2])))
    case OtherBox =>
      Err(BboxNotDictOrList)
  }

  /** Number of integers in the inclusive range [lo..hi]. */
  function Span(lo: int, hi: int): nat {
    if hi < lo then 0 else hi - lo + 1
  }

  /** The tiles (x, y0) .. (x, y1), y increasing. */
  function Column(zoom: int, x: int, y0: int, y1: int): seq<Tile>
    decreases y1 - y0
  {
    if y1 < y0 then [] else Column(zoom, x, y0, y1 - 1) + [Tile(zoom, x, y1)]
  }

  /** The rectangle [x0..x1] x [y0..y1], one column after another. */
  function Rect(zoom: int, x0: int, x1: int, y0: int, y1: int): seq<Tile>
    decreases x1 - x0
  {
    if x1 < x0 then [] else Rect(zoom, x0, x1 - 1, y0, y1) + Column(zoom, x1, y0, y1)
  }

  /** What `_tiles_from_bbox` returns, or the error it raises. */
  function EnumerateTiles(bbox: Bbox, zoom: int, tileFor: (Point, int) -> (int, int)): Result<seq<Tile>> {
    match CornerPoints(bbox)
    case Err(e) => Err(e)
    case Ok((pmin, pmax)) =>
      var (x0, y0) := tileFor(pmin, zoom);
      var (x1, y1) := tileFor(pmax, zoom);
      Ok(Rect(zoom, x0, x1, y0, y1))
  }

  /** Tile `s` comes strictly before tile `t`: x first, then y. */
  predicate Before(s: Tile, t: Tile) {
    s.x < t.x || (s.x == t.x && s.y < t.y)
  }

  lemma {:induction false} ColumnAt(zoom: int, x: int, y0: int, y1: int)
    ensures |Column(zoom, x, y0, y1)| == Span(y0, y1)
    ensures forall k :: 0 <= k < Span(y0, y1) ==> Column(zoom, x, y0, y1)[k] == Tile(zoom, x, y0 + k)
    decreases y1 - y0
  {
    if y0 <= y1 {
      ColumnAt(zoom, x, y0, y1 - 1);
    }
  }

  /** The rectangle holds exactly Span(x0, x1) * Span(y0, y1) tiles. */
  lemma {:induction false} RectSize(zoom: int, x0: int, x1: int, y0: int, y1: int)
    ensures |Rect(zoom, x0, x1, y0, y1)| == Span(x0, x1) * Span(y0, y1)
    decreases x1 - x0
  {
    if x0 <= x1 {
      RectSize(zoom, x0, x1 - 1, y0, y1);
      ColumnAt(zoom, x1, y0, y1);
      assert Span(x0, x1) == Span(x0, x1 - 1) + 1;
      assert Span(x0, x1) * Span(y0, y1) == Span(x0, x1 - 1) * Span(y0, y1) + Span(y0, y1);
    }
  }

  /** A tile is enumerated exactly when it lies, at this zoom, inside [x0..x1] x [y0..y1]. */
  lemma {:induction false} RectMembers(zoom: int, x0: int, x1: int, y0: int, y1: int, t: Tile)
    ensures t in Rect(zoom, x0, x1, y0, y1) <==> t.zoom == zoom && x0 <= t.x <= x1 && y0 <= t.y <= y1
    decreases x1 - x0
  {
    if x0 <= x1 {
      RectMembers(zoom, x0, x1 - 1, y0, y1, t);
      ColumnAt(zoom, x1, y0, y1);
      if t.zoom == zoom && t.x == x1 && y0 <= t.y <= y1 {
        assert Column(zoom, x1, y0, y1)[t.y - y0] == t;
      }
    }
  }

  /** Enumeration order is x outer, y inner: every tile comes strictly before the ones after it. */
  lemma {:induction false} RectOrdered(zoom: int, x0: int, x1: int, y0: int, y1: int)
    ensures var r := Rect(zoom, x0, x1, y0, y1);
      forall i, j :: 0 <= i < j < |r| ==> Before(r[i], r[j])
    decreases x1 - x0
  {
    if x0 <= x1 {
      var front := Rect(zoom, x0, x1 - 1, y0, y1);
      var col := Column(zoom, x1, y0, y1);
      var r := front + col;
      RectOrdered(zoom, x0, x1 - 1, y0, y1);
      ColumnAt(zoom, x1, y0, y1);
      forall i, j | 0 <= i < j < |r| ensures Before(r[i], r[j]) {
        if j >= |front| && i < |front| {
          assert r[i] in front;
          RectMembers(zoom, x0, x1 - 1, y0, y1, r[i]);
        }
      }
    }
  }

  /** Every tile is enumerated once: no two positions hold the same tile. */
  lemma RectDistinct(zoom: int, x0: int, x1: int, y0: int, y1: int)
    ensures var r := Rect(zoom, x0, x1, y0, y1);
      forall i, j :: 0 <= i < |r| && 0 <= j < |r| && i != j ==> r[i] != r[j]
  {
    var r := Rect(zoom, x0, x1, y0, y1);
    RectOrdered(zoom, x0, x1, y0, y1);
    forall i, j | 0 <= i < |r| && 0 <= j < |r| && i != j ensures r[i] != r[j] {
      if i < j { assert Before(r[i], r[j]); } else { assert Before(r[j], r[i]); }
    }
  }

  /**
   * The properties of a successful enumeration: its size, that it is the
   * inclusive rectangle between the two corner tiles, x-outer/y-inner order
   * (hence no repeats), and emptiness when the corners are inverted.
   */
  lemma EnumerationProperties(bbox: Bbox, zoom: int, tileFor: (Point, int) -> (int, int))
    requires CornerPoints(bbox).Ok?
    ensures var (pmin, pmax) := CornerPoints(bbox).value;
      var (x0, y0) := tileFor(pmin, zoom);
      var (x1, y1) := tileFor(pmax, zoom);
      var r := EnumerateTiles(bbox, zoom, tileFor);
      && r.Ok?
      && |r.value| == Span(x0, x1) * Span(y0, y1)
      && (x1 < x0 || y1 < y0 ==> r.value == [])
      && (forall t :: t in r.value <==> t.zoom == zoom && x0 <= t.x <= x1 && y0 <= t.y <= y1)
      && (forall i, j :: 0 <= i < j < |r.value| ==> Before(r.value[i], r.value[j]))
  {
    var (pmin, pmax) := CornerPoints(bbox).value;
    var (x0, y0) := tileFor(pmin, zoom);
    var (x1, y1) := tileFor(pmax, zoom);
    RectSize(zoom, x0, x1, y0, y1);
    RectOrdered(zoom, x0, x1, y0, y1);
    forall t ensures t in Rect(zoom, x0, x1, y0, y1) <==> t.zoom == zoom && x0 <= t.x <= x1 && y0 <= t.y <= y1 {
      RectMembers(zoom, x0, x1, y0, y1, t);
    }
  }

  /**
   * `_tiles_from_bbox`: the corner check, then the nested loops over
   * x in range(x0, x1 + 1) and y in range(y0, y1 + 1).
   */
  method TilesFromBbox(bbox: Bbox, zoom: int, tileFor: (Point, int) -> (int, int)) returns (r: Result<seq<Tile>>)
    ensures r == EnumerateTiles(bbox, zoom, tileFor)
  {
    var corners := CornerPoints(bbox);
    if corners.Err? {
      return Err(corners.error);
    }
    var (pmin, pmax) := corners.value;
    var (x0, y0) := tileFor(pmin, zoom);
    var (x1, y1) := tileFor(pmax, zoom);
    var tiles: seq<Tile> := [];
    var x := x0;
    while x <= x1
      invariant x0 <= x && (x <= x1 + 1 || x == x0)
      invariant tiles == Rect(zoom, x0, x - 1, y0, y1)
      decreases x1 - x
    {
      var y := y0;
      while y <= y1
        invariant y0 <= y && (y <= y1 + 1 || y == y0)
        invariant tiles == Rect(zoom, x0, x - 1, y0, y1) + Column(zoom, x, y0, y - 1)
        decreases y1 - y
      {
        tiles := tiles + [Tile(zoom, x, y)];
        y := y + 1;
      }
      x := x + 1;
    }
    r := Ok(tiles);
  }
}
