# GSI-VTDownloader tile download core in Dafny

GSI-VTDownloader is a QGIS plugin that downloads vector tiles from the
Geospatial Information Authority of Japan for a rectangle chosen by the
user. It merges the tiles of one layer into a QGIS layer. This project
models the sequential logic of `gsi_geojson_generator.py`:

- **The tile loop of `TileDownloader.run`.** For each `[x, y, z]` of the
  tile index, it fills the `{z}/{x}/{y}.pbf` URL template and forms the
  cache path `TMP_PATH/z/x/y.pbf`. It downloads the tile only when that
  path does not exist, and builds the OGR data source URI
  `path|layername=…|geometrytype=…`. It keeps the URIs the OGR provider
  accepts and emits progress `i + 1` for each kept tile. Finally it
  merges the kept URIs.
- **`make_xyz_dirs`.** It calls `os.makedirs(TMP_PATH/z/x, exist_ok=True)`
  for each tile.
- **The pure helpers.**
  - `translate_gsitype_to_geometry`.
  - `make_rectangle_of`.
  - `make_bbox`.
  - The x part of `lonlat_to_webmercator`.
  - The repacking loop of `make_tileindex`.

Files:

- `strings.dfy` (module `Strings`) covers Python's `str.replace`,
  `str(int)` with its inverse, and `str.split` with `join`.
- `filesystem.dfy` (module `FileSystem`) is a class holding the cache
  files (path to bytes) and the set of directories. Its methods stand for
  `os.path.exists`, `os.makedirs(..., exist_ok=True)` and
  `open(path, 'wb').write`.
- `network.dfy` (module `Network`) stands for `urlopen(url).read()`. It
  answers from a table of responses and logs the requested URLs.
- `tiles.dfy` (module `Tiles`) covers the tile URL, the cache paths, the
  directories `make_xyz_dirs` creates, the OGR URI and the geometry-type
  labels.
- `download.dfy` (module `Download`) describes the tile loop as
  functions, in two ways:
  - Step by step: `Iteration`, `Step` and `Processed`.
  - Directly: `Content`, `KeptUris`, `KeptProgress` and `Downloads`.

  The lemmas prove that the two descriptions agree, and they prove the
  cache, download, filter and progress properties from the direct one.
- `downloader.dfy` (module `Downloader`) is the `TileDownloader` class.
  `Run`, `MakeXyzDirs` and the loop methods are proved against the
  `Download` functions.
- `generator.dfy` (module `Generator`) covers the bounding-box helpers of
  `GsiGeojsonGenerator` and `make_tileindex`.

## Model

| member | source | states |
|---|---|---|
| Strings.ReplacePieces | gsi_geojson_generator.py:151 | `str.replace` on text made of pieces replaces exactly the pieces equal to the pattern, provided every other piece cannot start a match |
| Strings.IntToDecimal | gsi_geojson_generator.py:147-149 | `str(n)` is non-empty and made of decimal digits, with an optional leading minus sign |
| Strings.ParseIntToDecimal | gsi_geojson_generator.py:147-149 | `int(str(n)) == n`: the decimal rendering of a tile coordinate loses nothing |
| Strings.IntToDecimalInjective | gsi_geojson_generator.py:147-149 | distinct integers have distinct decimal renderings |
| Strings.SplitJoin | gsi_geojson_generator.py:152 | splitting a joined list at the separator gives the list back when no part contains the separator |
| Tiles.TileUrlShape | gsi_geojson_generator.py:150-151 | the three `replace` calls on `TILE_URL` give `https://cyberjapandata.gsi.go.jp/xyz/experimental_bvmap/` + z + `/` + x + `/` + y + `.pbf`, and no brace (so no placeholder) remains |
| Tiles.UrlPathFields | gsi_geojson_generator.py:150-151 | the URL after its fixed prefix splits at `/` into `z`, `x` and `y.pbf` |
| Tiles.TileUrlInjective | gsi_geojson_generator.py:150-151 | distinct tiles get distinct URLs |
| Tiles.XyzDir | gsi_geojson_generator.py:186-188 | a tile's `z/x` directory lies two levels below `TMP_PATH` |
| Tiles.TargetPath | gsi_geojson_generator.py:152 | a tile's cache file lies directly inside the tile's `z/x` directory, the directory `make_xyz_dirs` creates |
| Tiles.TargetPathInjective | gsi_geojson_generator.py:152 | distinct tiles get distinct cache files |
| Tiles.XyzAncestryComplete | gsi_geojson_generator.py:184-188 | after `make_xyz_dirs` has got past a tile, that tile's `z/x` directory and each of its leading parts exist |
| Tiles.XyzAncestrySound | gsi_geojson_generator.py:184-188 | `make_xyz_dirs` creates no directory other than the tiles' `z/x` directories and their leading parts |
| Tiles.FirstBlockedFromSpec | gsi_geojson_generator.py:184-188 | the tile where `make_xyz_dirs` stops is the first whose `makedirs` raises: none before it does, and it does unless all tiles got through |
| Tiles.XyzDirsExist | gsi_geojson_generator.py:142 | when `make_xyz_dirs` gets through, every tile's `z/x` directory exists before the loop writes anything |
| Tiles.PbfUriFields | gsi_geojson_generator.py:162 | splitting the URI at the bar character recovers the cache path, `layername=` + layer key and `geometrytype=` + geometry type, provided none of them contains a bar |
| Tiles.TranslateGsiType | gsi_geojson_generator.py:190-196 | `点` gives `Point`, `線` gives `LineString`, and every other label gives `Polygon`, each as an if-and-only-if |
| Tiles.TranslateGsiTypeNoBar | gsi_geojson_generator.py:190-196 | a geometry type never contains the bar that separates the URI's fields |
| FileSystem.Ancestry | gsi_geojson_generator.py:188 | what `os.makedirs(p)` makes exist is exactly `p` and its non-empty leading parts |
| FileSystem.FileSystem.MakeDirs | gsi_geojson_generator.py:188 | `os.makedirs(p, exist_ok=True)` succeeds exactly when `p` is non-empty and no leading part of it is a file; it then adds `p` and its leading parts as directories, and otherwise changes nothing; files are never touched |
| FileSystem.FileSystem.WriteFile | gsi_geojson_generator.py:157-158 | `open(p, 'wb').write(data)` needs `p`'s directory to exist and `p` not to be a directory; it sets `p` to `data` and changes nothing else |
| FileSystem.Seen | gsi_geojson_generator.py:163-164 | a reader finds bytes at a path exactly when the path is a file of the cache, and then finds that file's bytes |
| FileSystem.FileSystem.Content | gsi_geojson_generator.py:163-164 | the OGR reader finds bytes at a path exactly when the path is a file, and then finds that file's bytes |
| FileSystem.FileSystem.Exists | gsi_geojson_generator.py:155 | `os.path.exists(p)` is true exactly when `p` is a file with readable bytes or a directory: a directory counts as present although nothing can be read from it |
| Network.Web.UrlOpen | gsi_geojson_generator.py:156 | `urlopen(url).read()` returns the URL's response, or nothing when it raises, and logs the request |
| Download.IterationRaised | gsi_geojson_generator.py:155-158 | when the request for a tile raises, the cache is unchanged, nothing is kept, and exactly that tile's URL was requested |
| Download.DirectoryAtPath | gsi_geojson_generator.py:155-164 | when a directory stands at a tile's cache path, `os.path.exists` is true, so nothing is requested or written and the provider is asked about the tile's URI with no bytes to read |
| Download.PresentBeforeStep | gsi_geojson_generator.py:155 | at each tile, the loop finds the path present exactly when the direct description says no download is needed, and it then finds the content that description gives |
| Download.WrittenGrows | gsi_geojson_generator.py:157-158 | writing a tile's file adds no entry other than the tile cache files |
| Download.PresentGrows | gsi_geojson_generator.py:157-158 | writing a path no earlier tile occupies leaves every earlier tile's content as it was |
| Download.CachedConsistent | gsi_geojson_generator.py:154-158 | an iteration never overwrites or removes an existing entry, writes only its tile's file, and leaves the tile's path present with its content |
| Download.StepConsistent | gsi_geojson_generator.py:145-171 | one loop iteration keeps the loop state equal to the direct description (cache, kept URIs, progress, requests) |
| Download.ProcessedConsistent | gsi_geojson_generator.py:145-171 | as long as no request raises, the loop after `k` tiles has exactly the direct description's kept URIs, progress values and requests; existing cache entries are never overwritten; only tile files are written; every processed tile's path exists |
| Download.AbortSticks | gsi_geojson_generator.py:156 | once a request has raised, later tiles change nothing |
| Download.AbortedAtFirstFailure | gsi_geojson_generator.py:145-171 | when the first failing request is at tile `f`, the run stops there: the URIs and progress are those of the tiles before `f`, the failed URL is the last one requested, and files written before the failure stay |
| Download.DownloadsBound | gsi_geojson_generator.py:154-158 | at most one request per tile |
| Download.DownloadSource | gsi_geojson_generator.py:154-158 | every requested URL is that of a tile whose cache path was absent and that did not occur earlier in the index |
| Download.DownloadComplete | gsi_geojson_generator.py:154-158 | every tile whose path is absent at the start is requested |
| Download.DownloadsDistinct | gsi_geojson_generator.py:154-158 | no URL is requested twice, even when the index repeats a tile |
| Download.KeptLength | gsi_geojson_generator.py:166-171 | one progress value per collected URI, and at most one per tile, so there are no more URIs than tiles |
| Download.KeptEntry | gsi_geojson_generator.py:166-171 | the m-th progress value is `i + 1` for an accepted tile `i` of the index, so it lies between 1 and the number of tiles, and the m-th collected URI is that tile's URI |
| Download.KeptIncreasing | gsi_geojson_generator.py:166-171 | the progress values strictly increase, so the URIs are in tile-index order |
| Download.KeptComplete | gsi_geojson_generator.py:166-171 | every accepted tile's position is emitted, so an invalid tile is skipped and nothing else is |
| Download.NothingToDownload | gsi_geojson_generator.py:154-156 | with every tile's path present, nothing is requested |
| Download.KeptSameContent | gsi_geojson_generator.py:160-169 | which tiles are kept depends only on the content each tile presents |
| Download.RerunFetchesNothing | gsi_geojson_generator.py:154-158 | a second run over the cache a successful run left requests nothing, writes nothing, and collects the same URIs and progress |
| Downloader.RunEnvDistinguishes | gsi_geojson_generator.py:150-152 | the run's URL and cache path tell tiles apart |
| Downloader.RunUriFields | gsi_geojson_generator.py:160-162 | the URI a run forms for any tile splits at the bar back into the tile's cache path, `layername=` + layer key and `geometrytype=` + the geometry type of the layer's data type, provided neither the layer key nor a component of the temporary directory contains a bar |
| Downloader.RunEnvForms | gsi_geojson_generator.py:150-162 | the run forms every tile's path, URL and URI as the loop body does, and each tile's `z/x` directory is present once `make_xyz_dirs` has succeeded |
| Downloader.TileDownloader.constructor | gsi_geojson_generator.py:135-139 | stores the tile index and layer key; no merged layer; nothing emitted; `TMP_PATH` is `vtdownloader` under the temporary directory |
| Downloader.TileDownloader.MakeXyzDirs | gsi_geojson_generator.py:184-188 | files unchanged; it succeeds exactly when no tile's `makedirs` raises; the directories become the old ones plus those of the tiles before the first failing one |
| Downloader.TileDownloader.MakeXyzDirsTwice | gsi_geojson_generator.py:184-188 | `make_xyz_dirs` run a second time on the same cache succeeds exactly when the first run did, stops at the same tile and creates no directory beyond those the first run created (`exist_ok=True`); files are untouched |
| Downloader.TileDownloader.LoadTile | gsi_geojson_generator.py:146-166 | one tile: it downloads and writes only when the path does not exist, and gives the URI and the provider's verdict, as `Download.Iteration` describes; a raising request is reported |
| Downloader.TileDownloader.VisitTile | gsi_geojson_generator.py:145-171 | one loop pass moves cache, collected URIs, progress emissions and requests from the state after `i` tiles to the state after `i + 1` |
| Downloader.TileDownloader.DownloadTiles | gsi_geojson_generator.py:144-171 | the loop leaves cache, URIs, emissions and requests as `Download.Processed` over all tiles says; it fails exactly when a request raised |
| Downloader.TileDownloader.Run | gsi_geojson_generator.py:141-182 | the directories are made first; if that raises, nothing else happens; otherwise the tile loop runs, and unless a request raised, the kept URIs are merged into a layer named after the layer key and `downloadFinished(True)` is emitted once |
| Generator.WebMercatorX | gsi_geojson_generator.py:76-78 | the x part of the projection keeps the order of longitudes, can be undone, sends ±180° to ±20037508.34 and 0° to 0, and maps `[-180, 180]` onto `[-20037508.34, 20037508.34]` |
| Generator.MakeRectangleOf | gsi_geojson_generator.py:80-94 | a `Polygon` with exactly one ring of five vertices, closed on the left-bottom corner |
| Generator.RectangleRing | gsi_geojson_generator.py:80-94 | the ring's vertices are exactly the four corners; every edge is horizontal or vertical; the ring encloses twice `(x2 - x1) * (y2 - y1)`, so it runs counter-clockwise when the corners are left-bottom and right-top |
| Generator.BboxOfRectangle | gsi_geojson_generator.py:51-58 | `make_bbox` is `[xMin, xMax, yMin, yMax]` of the same projected corners the rectangle uses. For ordered corners it bounds every vertex, and its low and high corners are vertices |
| Generator.MakeTileindex | gsi_geojson_generator.py:60-74 | the tile index has the cover's length, and entry `i` repacks the cover's `i`-th `(x, y, z)` tuple unchanged |

## Left out

- Failed downloads: `run` does not catch an exception from `urlopen`
  (gsi_geojson_generator.py:156). A tile whose download fails therefore
  ends the thread, and there is no merge and no `downloadFinished`. The
  model follows the code: `Run` stops at the first raising request.
- Progress: progress is emitted only for kept tiles, as the code does
  (line 167 `continue` skips the emission at line 171). Line 40 sets the
  progress bar's range to `0..len(self.tileindex)`, so a rejected tile
  leaves the bar short of its maximum; the model records the emitted values
  as they are.
- `make_xyz_dirs` failures: a `makedirs` that raises also ends the run.
- Other write failures: permissions, a full disk and other errors of
  `open`/`write` are not modelled.
- `Generator.LonLatToWebMercator` models only the x part exactly, as real
  arithmetic. The y part, `log(tan(...))` in floating point, is a function
  parameter (`mercatorY`). Floating-point rounding is not modelled anywhere.
- `tiletanic.tilecover.cover_geometry` and the `shapely` shape
  (lines 65-68) belong to an external library. `MakeTileindex` takes the
  cover as a function parameter of the rectangle and the zoom level.
- `processing.run('saga:mergevectorlayers', …)` (lines 173-180) is not
  modelled as an operation. The merged layer is recorded as the URIs it
  merges and its name. A merge that fails (for example on an empty list)
  is not modelled.
- `clip_vlayer`, the `EXTENT` string formatting and `add_layer_to_proj`
  (lines 99-121) are QGIS processing and project calls.
- The Qt side is not modelled:
  - the dialog, progress bar and message boxes (lines 25-49 and 96-126);
  - `QThread.start`;
  - abort through `quit()`.

  The `progressChanged` and `downloadFinished` signals are recorded as
  sequences of emitted values.
- `GsiGeojsonGenerator.__init__` and `run` are UI wiring. The
  `os.makedirs(TMP_PATH)` in `__init__` is a directory creation the loop
  model does not depend on.
- `tempfile.gettempdir()` is the constructor parameter `tempDir`.
- `settings.SOURCE_LAYERS` is not part of this model. It is an input map,
  and `Run` requires the layer key to be in it, since line 161 raises
  `KeyError` otherwise.
- `QgsVectorLayer(...).dataProvider().isValid()` is the uninterpreted
  parameter `providerValid`. It gives a verdict on the URI and on the
  bytes found at the tile's path.
- The network is a fixed table of responses, so a URL answers the same
  way every time. Timeouts, partial reads and retries are not modelled.
- `Download`'s lemmas are proved for any tile path, URL and URI functions
  that tell tiles apart. `Downloader.RunEnv` instantiates them with the
  run's own functions, and `Downloader.RunEnvDistinguishes` shows that
  these tell tiles apart.
- Paths are lists of components, and `os.path.join` is rendered with `/`
  (POSIX). Windows separators are not modelled.
