/** Per-tile names used by `TileDownloader.run`: the tile URL filled from the
    `{z}/{x}/{y}` template, the cache path `TMP_PATH/z/x/y.pbf`, the OGR data
    source URI, and the GSI geometry-type label mapping. */
module Tiles {
  import opened Strings
  import opened FileSystem

  /** One entry of the tile index, the list `[x, y, z]`. */
  datatype Tile = Tile(x: int, y: int, z: int)

  /** `TILE_URL`, spelled as its fixed prefix followed by the placeholders;
      the value is the string
      "https://cyberjapandata.gsi.go.jp/xyz/experimental_bvmap/{z}/{x}/{y}.pbf". */
  const TILE_URL: string := UrlWith("{z}", "{x}", "{y}")

  const URL_PREFIX: string := "https://" + "cyberjapandata.gsi.go.jp" + "/xyz/" + "experimental_bvmap/"

  /** The tile URL: `TILE_URL.replace('{z}', z).replace('{x}', x).replace('{y}', y)`
      with the decimal renderings of the tile's coordinates. */
  function TileUrl(t: Tile): string
  {
    var z, x, y := IntToDecimal(t.z), IntToDecimal(t.x), IntToDecimal(t.y);
    Replace(Replace(Replace(TILE_URL, "{z}", z), "{x}", x), "{y}", y)
  }

  lemma DecimalInert(s: string, pat: string)
    requires DecimalLike(s) && |pat| > 0 && pat[0] == '{'
    ensures Inert(s, pat)
  {
  }

  lemma PlaceholderInert(c: char, d: char)
    requires c != d && c != '{'
    ensures Inert(['{', c, '}'], ['{', d, '}'])
  {
    var piece := ['{', c, '}'];
    assert piece[1..] == [c, '}'];
    assert piece[..3][1] != ['{', d, '}'][1];
  }

  lemma PrefixBraceFree()
    ensures '{' !in URL_PREFIX && '}' !in URL_PREFIX
  {
  }

  /** The template with its three slots filled by the given text. */
  function UrlWith(z: string, x: string, y: string): string
  {
    URL_PREFIX + (z + ("/" + (x + ("/" + (y + ".pbf")))))
  }

  /** Text without the pattern's first character is left alone. */
  lemma ReplaceClear(a: string, pat: string, rep: string)
    requires |pat| > 0 && pat[0] !in a
    ensures Replace(a, pat, rep) == a
  {
    ReplaceEmpty(pat, rep);
    ReplaceInert(a, [], pat, rep);
    assert a + [] == a;
  }

  /** The `{z}` pass fills only the `{z}` slot. */
  lemma {:induction false} FillZ(z: string)
    ensures Replace(UrlWith("{z}", "{x}", "{y}"), "{z}", z) == UrlWith(z, "{x}", "{y}")
  {
    var pat := "{z}";
    PrefixBraceFree();
    PlaceholderInert('x', 'z');
    PlaceholderInert('y', 'z');
    ReplaceClear(".pbf", pat, z);
    ReplaceInert("{y}", ".pbf", pat, z);
    ReplaceInert("/", "{y}" + ".pbf", pat, z);
    ReplaceInert("{x}", "/" + ("{y}" + ".pbf"), pat, z);
    ReplaceInert("/", "{x}" + ("/" + ("{y}" + ".pbf")), pat, z);
    ReplaceHit("/" + ("{x}" + ("/" + ("{y}" + ".pbf"))), pat, z);
    ReplaceInert(URL_PREFIX, "{z}" + ("/" + ("{x}" + ("/" + ("{y}" + ".pbf")))), pat, z);
  }

  /** The `{x}` pass fills only the `{x}` slot. */
  lemma {:induction false} FillX(z: string, x: string)
    requires DecimalLike(z)
    ensures Replace(UrlWith(z, "{x}", "{y}"), "{x}", x) == UrlWith(z, x, "{y}")
  {
    var pat := "{x}";
    PrefixBraceFree();
    PlaceholderInert('y', 'x');
    DecimalInert(z, pat);
    ReplaceClear(".pbf", pat, x);
    ReplaceInert("{y}", ".pbf", pat, x);
    ReplaceInert("/", "{y}" + ".pbf", pat, x);
    ReplaceHit("/" + ("{y}" + ".pbf"), pat, x);
    ReplaceInert("/", "{x}" + ("/" + ("{y}" + ".pbf")), pat, x);
    ReplaceInert(z, "/" + ("{x}" + ("/" + ("{y}" + ".pbf"))), pat, x);
    ReplaceInert(URL_PREFIX, z + ("/" + ("{x}" + ("/" + ("{y}" + ".pbf")))), pat, x);
  }

  /** The `{y}` pass fills only the `{y}` slot. */
  lemma {:induction false} FillY(z: string, x: string, y: string)
    requires DecimalLike(z) && DecimalLike(x)
    ensures Replace(UrlWith(z, x, "{y}"), "{y}", y) == UrlWith(z, x, y)
  {
    var pat := "{y}";
    PrefixBraceFree();
    DecimalInert(z, pat);
    DecimalInert(x, pat);
    ReplaceClear(".pbf", pat, y);
    ReplaceHit(".pbf", pat, y);
    ReplaceInert("/", "{y}" + ".pbf", pat, y);
    ReplaceInert(x, "/" + ("{y}" + ".pbf"), pat, y);
    ReplaceInert("/", x + ("/" + ("{y}" + ".pbf")), pat, y);
    ReplaceInert(z, "/" + (x + ("/" + ("{y}" + ".pbf"))), pat, y);
    ReplaceInert(URL_PREFIX, z + ("/" + (x + ("/" + ("{y}" + ".pbf")))), pat, y);
  }

  /** The filled URL is the fixed prefix followed by `z/x/y.pbf`; no
      placeholder survives, because decimal renderings contain no brace. */
  lemma {:induction false} TileUrlShape(t: Tile)
    ensures TileUrl(t) == URL_PREFIX + (IntToDecimal(t.z) + ("/" + (IntToDecimal(t.x) + ("/"
                          + (IntToDecimal(t.y) + ".pbf")))))
    ensures '{' !in TileUrl(t) && '}' !in TileUrl(t)
  {
    var z, x, y := IntToDecimal(t.z), IntToDecimal(t.x), IntToDecimal(t.y);
    FillZ(z);
    FillX(z, x);
    FillY(z, x, y);
    PrefixBraceFree();
    DecimalBraceFree(z);
    DecimalBraceFree(x);
    DecimalBraceFree(y);
    assert '{' !in ".pbf" && '}' !in ".pbf";
  }

  lemma DecimalBraceFree(s: string)
    requires DecimalLike(s)
    ensures '{' !in s && '}' !in s
  {
  }

  /** Distinct tiles have distinct URLs: the URL's text after the fixed
      prefix splits at `/` into `z`, `x` and `y.pbf`. */
  lemma TileUrlInjective(t1: Tile, t2: Tile)
    ensures TileUrl(t1) == TileUrl(t2) ==> t1 == t2
  {
    if TileUrl(t1) == TileUrl(t2) {
      var r1 := UrlPath(t1);
      var r2 := UrlPath(t2);
      TileUrlShape(t1);
      TileUrlShape(t2);
      assert r1 == TileUrl(t1)[|URL_PREFIX|..];
      assert r2 == TileUrl(t2)[|URL_PREFIX|..];
      UrlPathFields(t1);
      UrlPathFields(t2);
      var y1, y2 := IntToDecimal(t1.y), IntToDecimal(t2.y);
      assert y1 == (y1 + ".pbf")[..|y1|];
      assert y2 == (y2 + ".pbf")[..|y2|];
      IntToDecimalInjective(t1.z, t2.z);
      IntToDecimalInjective(t1.x, t2.x);
      IntToDecimalInjective(t1.y, t2.y);
    }
  }

  /** The URL after its fixed prefix. */
  function UrlPath(t: Tile): string
  {
    IntToDecimal(t.z) + ("/" + (IntToDecimal(t.x) + ("/" + (IntToDecimal(t.y) + ".pbf"))))
  }

  lemma UrlPathFields(t: Tile)
    ensures Split(UrlPath(t), '/') == [IntToDecimal(t.z), IntToDecimal(t.x), IntToDecimal(t.y) + ".pbf"]
  {
    var z, x, y := IntToDecimal(t.z), IntToDecimal(t.x), IntToDecimal(t.y);
    assert '/' !in z && '/' !in x && '/' !in y;
    assert '/' !in ".pbf";
    SplitNoSep(y + ".pbf", '/');
    assert x + ("/" + (y + ".pbf")) == x + ['/'] + (y + ".pbf");
    SplitAt(x, y + ".pbf", '/');
    assert UrlPath(t) == z + ['/'] + (x + ['/'] + (y + ".pbf"));
    SplitAt(z, x + ['/'] + (y + ".pbf"), '/');
  }

  // ---------------------------------------------------------------------
  // Cache paths and the OGR data source URI

  /** `os.path.join(TMP_PATH, z, x)`: the directory holding a tile's file. */
  function XyzDir(tmp: Path, t: Tile): (d: Path)
    ensures |d| == |tmp| + 2 && d[..|tmp|] == tmp
  {
    tmp + [IntToDecimal(t.z), IntToDecimal(t.x)]
  }

  /** `os.path.join(TMP_PATH, z, x, y + '.pbf')`: a tile's cache file. */
  function TargetPath(tmp: Path, t: Tile): (p: Path)
    ensures |p| == |tmp| + 3 && p[..|tmp| + 2] == XyzDir(tmp, t)
  {
    var p := tmp + [IntToDecimal(t.z), IntToDecimal(t.x), IntToDecimal(t.y) + ".pbf"];
    assert p[..|tmp| + 2] == XyzDir(tmp, t);
    p
  }

  /** Distinct tiles have distinct cache files, so one tile's download can
      never be taken for another's. */
  lemma TargetPathInjective(tmp: Path, t1: Tile, t2: Tile)
    ensures TargetPath(tmp, t1) == TargetPath(tmp, t2) ==> t1 == t2
  {
    if TargetPath(tmp, t1) == TargetPath(tmp, t2) {
      var n := |tmp|;
      var p1, p2 := TargetPath(tmp, t1), TargetPath(tmp, t2);
      assert p1[n] == IntToDecimal(t1.z) && p2[n] == IntToDecimal(t2.z);
      assert p1[n + 1] == IntToDecimal(t1.x) && p2[n + 1] == IntToDecimal(t2.x);
      var y1, y2 := IntToDecimal(t1.y), IntToDecimal(t2.y);
      assert p1[n + 2] == y1 + ".pbf" && p2[n + 2] == y2 + ".pbf";
      assert y1 == (y1 + ".pbf")[..|y1|];
      assert y2 == (y2 + ".pbf")[..|y2|];
      IntToDecimalInjective(t1.z, t2.z);
      IntToDecimalInjective(t1.x, t2.x);
      IntToDecimalInjective(t1.y, t2.y);
    }
  }

  /** Every directory `make_xyz_dirs` asks for over the first `k` tiles,
      with their leading parts. */
  function XyzAncestry(tmp: Path, tiles: seq<Tile>, k: nat): set<Path>
    requires k <= |tiles|
  {
    if k == 0 then {} else XyzAncestry(tmp, tiles, k - 1) + Ancestry(XyzDir(tmp, tiles[k - 1]))
  }

  /** `d` is a tile's `z/x` directory or one of its non-empty leading parts. */
  predicate LeadsTo(d: Path, tmp: Path, t: Tile)
  {
    1 <= |d| <= |tmp| + 2 && d == XyzDir(tmp, t)[..|d|]
  }

  lemma AncestryMember(p: Path, d: Path)
    ensures d in Ancestry(p) <==> 1 <= |d| <= |p| && d == p[..|d|]
  {
    if 1 <= |d| <= |p| && d == p[..|d|] {
      assert p[..|d|] in Ancestry(p);
    }
  }

  /** Every tile's `z/x` directory and each of its non-empty leading parts
      is among the directories. */
  lemma {:induction false} XyzAncestryComplete(tmp: Path, tiles: seq<Tile>, k: nat, i: nat, d: Path)
    requires i < k <= |tiles| && LeadsTo(d, tmp, tiles[i])
    ensures d in XyzAncestry(tmp, tiles, k)
  {
    if i < k - 1 {
      XyzAncestryComplete(tmp, tiles, k - 1, i, d);
    } else {
      AncestryMember(XyzDir(tmp, tiles[k - 1]), d);
    }
  }

  /** And there are no others. */
  lemma {:induction false} XyzAncestrySound(tmp: Path, tiles: seq<Tile>, k: nat)
    requires k <= |tiles|
    ensures forall d | d in XyzAncestry(tmp, tiles, k) :: exists i | 0 <= i < k :: LeadsTo(d, tmp, tiles[i])
  {
    if k > 0 {
      XyzAncestrySound(tmp, tiles, k - 1);
      forall d | d in XyzAncestry(tmp, tiles, k)
        ensures exists i | 0 <= i < k :: LeadsTo(d, tmp, tiles[i])
      {
        if d in XyzAncestry(tmp, tiles, k - 1) {
          var i :| 0 <= i < k - 1 && LeadsTo(d, tmp, tiles[i]);
          assert 0 <= i < k;
        } else {
          AncestryMember(XyzDir(tmp, tiles[k - 1]), d);
          assert LeadsTo(d, tmp, tiles[k - 1]);
        }
      }
    }
  }

  /** `os.makedirs` raises for tile `i`'s `z/x` directory. */
  predicate XyzBlocked(files: map<Path, Bytes>, tmp: Path, tiles: seq<Tile>, i: nat)
    requires i < |tiles|
  {
    MakeDirsBlocked(files, XyzDir(tmp, tiles[i]))
  }

  /** The position of the first tile from `i` on whose `os.makedirs` call
      in `make_xyz_dirs` raises, or the number of tiles when none does. */
  function FirstBlockedFrom(files: map<Path, Bytes>, tmp: Path, tiles: seq<Tile>, i: nat): (f: nat)
    requires i <= |tiles|
    ensures i <= f <= |tiles|
    decreases |tiles| - i
  {
    if i == |tiles| then i
    else if XyzBlocked(files, tmp, tiles, i) then i
    else FirstBlockedFrom(files, tmp, tiles, i + 1)
  }

  function FirstBlocked(files: map<Path, Bytes>, tmp: Path, tiles: seq<Tile>): nat
  {
    FirstBlockedFrom(files, tmp, tiles, 0)
  }

  /** `FirstBlocked` is the first tile whose directory cannot be made: no
      tile before it is blocked, and it is blocked unless it is the end. */
  lemma {:induction false} FirstBlockedFromSpec(files: map<Path, Bytes>, tmp: Path, tiles: seq<Tile>, i: nat)
    requires i <= |tiles|
    ensures var f := FirstBlockedFrom(files, tmp, tiles, i);
            && (forall j | i <= j < f :: !XyzBlocked(files, tmp, tiles, j))
            && (f < |tiles| ==> XyzBlocked(files, tmp, tiles, f))
    decreases |tiles| - i
  {
    if i < |tiles| && !XyzBlocked(files, tmp, tiles, i) {
      FirstBlockedFromSpec(files, tmp, tiles, i + 1);
    }
  }

  /** Once `make_xyz_dirs` has got through all tiles, every tile's `z/x`
      directory exists. */
  lemma XyzDirsExist(tmp: Path, tiles: seq<Tile>)
    ensures forall i | 0 <= i < |tiles| :: XyzDir(tmp, tiles[i]) in XyzAncestry(tmp, tiles, |tiles|)
  {
    forall i | 0 <= i < |tiles|
      ensures XyzDir(tmp, tiles[i]) in XyzAncestry(tmp, tiles, |tiles|)
    {
      var d := XyzDir(tmp, tiles[i]);
      assert d[..|d|] == d;
      XyzAncestryComplete(tmp, tiles, |tiles|, i, d);
    }
  }

  /** The string form of a path: its components joined by `/`. */
  function PathString(p: Path): string
  {
    Join(p, '/')
  }

  /** The data source URI handed to OGR:
      `target_path + '|layername=' + layer_key + '|geometrytype=' + geometrytype`. */
  function PbfUri(path: Path, layerKey: string, geometryType: string): string
  {
    PathString(path) + "|layername=" + layerKey + "|geometrytype=" + geometryType
  }

  lemma {:induction false} JoinAvoids(ps: seq<string>, sep: char, c: char)
    requires c != sep
    requires forall k | 0 <= k < |ps| :: c !in ps[k]
    ensures c !in Join(ps, sep)
  {
    if |ps| > 1 {
      JoinAvoids(ps[1..], sep, c);
    }
  }

  /** Splitting the URI at `|` recovers the path, the layer option and the
      geometry option, provided none of them contains a `|`. */
  lemma PbfUriFields(path: Path, layerKey: string, geometryType: string)
    requires forall k | 0 <= k < |path| :: '|' !in path[k]
    requires '|' !in layerKey && '|' !in geometryType
    ensures Split(PbfUri(path, layerKey, geometryType), '|')
            == [PathString(path), "layername=" + layerKey, "geometrytype=" + geometryType]
  {
    var p, a, b := PathString(path), "layername=" + layerKey, "geometrytype=" + geometryType;
    JoinAvoids(path, '/', '|');
    assert '|' !in "layername=" && '|' !in "geometrytype=";
    assert "|layername=" == ['|'] + "layername=";
    assert "|geometrytype=" == ['|'] + "geometrytype=";
    assert PbfUri(path, layerKey, geometryType) == p + ['|'] + (a + ['|'] + b);
    SplitNoSep(b, '|');
    SplitAt(a, b, '|');
    SplitAt(p, a + ['|'] + b, '|');
  }

  // ---------------------------------------------------------------------
  // Geometry type labels

  /** `translate_gsitype_to_geometry`: the GSI label for points maps to
      `Point`, the one for lines to `LineString`, anything else to `Polygon`. */
  function TranslateGsiType(gsiType: string): (g: string)
    ensures g == "Point" <==> gsiType == "点"
    ensures g == "LineString" <==> gsiType == "線"
    ensures g == "Polygon" <==> gsiType != "点" && gsiType != "線"
  {
    if gsiType == "点" then "Point"
    else if gsiType == "線" then "LineString"
    else "Polygon"
  }

  lemma TranslateGsiTypeNoBar(gsiType: string)
    ensures '|' !in TranslateGsiType(gsiType)
  {
  }
}
