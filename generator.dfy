/** The bounding-box side of `GsiGeojsonGenerator`: the corners the user
    gave in longitude and latitude are projected to Web Mercator
    (EPSG:3857), made into the rectangle handed to the tile cover, or
    laid out as the `[xMin, xMax, yMin, yMax]` extent used for clipping;
    the cover's `(x, y, z)` tuples are repacked into the tile index. */
module Generator {
  import opened Tiles

  /** A two-element list `[x, y]`: longitude and latitude, or Web Mercator
      metres. */
  datatype Coord = Coord(x: real, y: real)

  /** Half the length of the equator in Web Mercator metres. */
  const HALF_CIRCUMFERENCE: real := 20037508.34

  /** `lonlat_to_webmercator`. The x part scales the longitude; the y part
      is `log(tan(...))` in floating point, for which `mercatorY` stands. */
  function LonLatToWebMercator(lonlat: Coord, mercatorY: real -> real): Coord
  {
    Coord(lonlat.x * HALF_CIRCUMFERENCE / 180.0, mercatorY(lonlat.y))
  }

  /** The x part keeps the order of longitudes, sends the antimeridian to
      plus or minus `HALF_CIRCUMFERENCE` and the prime meridian to 0, and
      can be undone. */
  lemma WebMercatorX(a: Coord, b: Coord, mercatorY: real -> real)
    ensures var pa, pb := LonLatToWebMercator(a, mercatorY), LonLatToWebMercator(b, mercatorY);
            && (a.x < b.x <==> pa.x < pb.x)
            && (a.x == b.x <==> pa.x == pb.x)
            && pa.x * 180.0 / HALF_CIRCUMFERENCE == a.x
            && (a.x == 180.0 ==> pa.x == HALF_CIRCUMFERENCE)
            && (a.x == -180.0 ==> pa.x == -HALF_CIRCUMFERENCE)
            && (a.x == 0.0 ==> pa.x == 0.0)
            && (-180.0 <= a.x <= 180.0 <==> -HALF_CIRCUMFERENCE <= pa.x <= HALF_CIRCUMFERENCE)
  {
  }

  /** The dictionary `{'type': ..., 'coordinates': ...}` of a geometry. */
  datatype Geometry = Geometry(kind: string, coordinates: seq<seq<Coord>>)

  /** `make_rectangle_of`: a polygon with one ring that starts at the
      left-bottom corner, runs to the right along the bottom, up, back
      along the top, and closes where it began. */
  function MakeRectangleOf(leftbottom: Coord, righttop: Coord): (r: Geometry)
    ensures r.kind == "Polygon" && |r.coordinates| == 1 && |r.coordinates[0]| == 5
    ensures r.coordinates[0][0] == r.coordinates[0][4] == leftbottom
  {
    var x1, y1, x2, y2 := leftbottom.x, leftbottom.y, righttop.x, righttop.y;
    Geometry("Polygon", [[Coord(x1, y1), Coord(x2, y1), Coord(x2, y2), Coord(x1, y2), Coord(x1, y1)]])
  }

  /** Twice the signed area enclosed by a closed ring (the shoelace sum):
      positive when the ring runs counter-clockwise. */
  function Shoelace(ring: seq<Coord>): real
  {
    if |ring| < 2 then 0.0
    else ring[0].x * ring[1].y - ring[1].x * ring[0].y + Shoelace(ring[1..])
  }

  /** The rectangle's corners are its four vertices, each edge is
      horizontal or vertical, and the ring encloses `(x2 - x1) * (y2 - y1)`:
      counter-clockwise, as section 3.1.6 of RFC 7946 asks of an exterior
      ring, exactly when the corners are given left-bottom and right-top. */
  lemma RectangleRing(leftbottom: Coord, righttop: Coord)
    ensures var ring := MakeRectangleOf(leftbottom, righttop).coordinates[0];
            && (forall v | v in ring ::
                  v in {leftbottom, righttop, Coord(leftbottom.x, righttop.y), Coord(righttop.x, leftbottom.y)})
            && (forall v | v in {leftbottom, righttop, Coord(leftbottom.x, righttop.y), Coord(righttop.x, leftbottom.y)} ::
                  v in ring)
            && (forall k | 0 <= k < 4 :: ring[k].x == ring[k + 1].x || ring[k].y == ring[k + 1].y)
            && Shoelace(ring) == 2.0 * (righttop.x - leftbottom.x) * (righttop.y - leftbottom.y)
            && (leftbottom.x < righttop.x && leftbottom.y < righttop.y ==> Shoelace(ring) > 0.0)
  {
    var ring := MakeRectangleOf(leftbottom, righttop).coordinates[0];
    var x1, y1, x2, y2 := leftbottom.x, leftbottom.y, righttop.x, righttop.y;
    var r1 := ring[1..];
    var r2 := r1[1..];
    var r3 := r2[1..];
    var r4 := r3[1..];
    assert r4 == [Coord(x1, y1)];
    assert Shoelace(r3) == x1 * y1 - x1 * y2;
    assert Shoelace(r2) == (x2 * y2 - x1 * y2) + (x1 * y1 - x1 * y2);
    assert Shoelace(r1) == (x2 * y2 - x2 * y1) + (x2 * y2 - x1 * y2) + (x1 * y1 - x1 * y2);
    calc {
      Shoelace(ring);
      (x1 * y1 - x2 * y1) + Shoelace(r1);
      2.0 * (x2 - x1) * (y2 - y1);
    }
    if x1 < x2 && y1 < y2 {
      assert (x2 - x1) * (y2 - y1) > 0.0;
    }
  }

  /** `make_bbox`: the projected corners laid out as `[xMin, xMax, yMin,
      yMax]`. */
  function MakeBbox(leftbottomLonLat: Coord, righttopLonLat: Coord, mercatorY: real -> real): (b: seq<real>)
    ensures |b| == 4
  {
    var lb := LonLatToWebMercator(leftbottomLonLat, mercatorY);
    var rt := LonLatToWebMercator(righttopLonLat, mercatorY);
    [lb.x, rt.x, lb.y, rt.y]
  }

  /** The extent and the rectangle come from the same corners: the extent
      lists the x range before the y range. When the corners are ordered
      it is the rectangle's bounding box: every vertex lies within it and
      its low and high corners are vertices. */
  lemma BboxOfRectangle(leftbottomLonLat: Coord, righttopLonLat: Coord, mercatorY: real -> real)
    ensures var b := MakeBbox(leftbottomLonLat, righttopLonLat, mercatorY);
            var ring := MakeRectangleOf(LonLatToWebMercator(leftbottomLonLat, mercatorY),
                                        LonLatToWebMercator(righttopLonLat, mercatorY)).coordinates[0];
            && b[0] == ring[0].x && b[1] == ring[2].x && b[2] == ring[0].y && b[3] == ring[2].y
            && (leftbottomLonLat.x <= righttopLonLat.x && mercatorY(leftbottomLonLat.y) <= mercatorY(righttopLonLat.y) ==>
                  && (forall v | v in ring :: b[0] <= v.x <= b[1] && b[2] <= v.y <= b[3])
                  && Coord(b[0], b[2]) in ring && Coord(b[1], b[3]) in ring)
  {
    var lb := LonLatToWebMercator(leftbottomLonLat, mercatorY);
    var rt := LonLatToWebMercator(righttopLonLat, mercatorY);
    WebMercatorX(leftbottomLonLat, righttopLonLat, mercatorY);
    RectangleRing(lb, rt);
  }

  /** A tile as `tiletanic` yields it: `(x, y, z)`. */
  type CoverTile = (int, int, int)

  function Triple(t: Tile): CoverTile
  {
    (t.x, t.y, t.z)
  }

  /** `make_tileindex`: the tiles `coverGeometry` (the `tiletanic` cover
      of a geometry at a zoom level) finds for the projected rectangle,
      repacked one by one, in the cover's order, with nothing lost. */
  method MakeTileindex(leftbottomLonLat: Coord, righttopLonLat: Coord, zoomlevel: int,
                       mercatorY: real -> real, coverGeometry: (Geometry, int) -> seq<CoverTile>)
    returns (tileindex: seq<Tile>)
    ensures var cover := coverGeometry(MakeRectangleOf(LonLatToWebMercator(leftbottomLonLat, mercatorY),
                                                       LonLatToWebMercator(righttopLonLat, mercatorY)), zoomlevel);
            && |tileindex| == |cover|
            && forall i | 0 <= i < |cover| :: Triple(tileindex[i]) == cover[i]
  {
    var leftbottom := LonLatToWebMercator(leftbottomLonLat, mercatorY);
    var righttop := LonLatToWebMercator(righttopLonLat, mercatorY);
    var bboxGeometry := MakeRectangleOf(leftbottom, righttop);
    var covering := coverGeometry(bboxGeometry, zoomlevel);
    tileindex := [];
    var i := 0;
    while i < |covering|
      invariant 0 <= i <= |covering| && |tileindex| == i
      invariant forall j | 0 <= j < i :: Triple(tileindex[j]) == covering[j]
    {
      var tile := covering[i];
      tileindex := tileindex + [Tile(tile.0, tile.1, tile.2)];
      i := i + 1;
    }
  }
}
