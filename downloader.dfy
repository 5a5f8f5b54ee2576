/** `TileDownloader`: creates the cache directories, walks the tile index
    downloading the tiles not yet cached, keeps the URIs the OGR provider
    accepts while emitting progress, and hands them to the merge. */
module Downloader {
  import opened Strings
  import opened FileSystem
  import opened Network
  import opened Tiles
  import opened Download

  /** The entry of the source layer table for one layer key. */
  datatype LayerSpec = LayerSpec(dataType: string)

  /** The layer `saga:mergevectorlayers` produces: the URIs it merges and the
      name it is given. */
  datatype MergedLayer = MergedLayer(sources: seq<string>, name: string)

  /** The description of a run under cache root `tmp`: paths, URLs and URIs
      are formed as `run` forms them. */
  function RunEnv(tmp: Path, tiles: seq<Tile>, layerKey: string, geometryType: string, dirs: set<Path>,
                  fetch: string -> Option<Bytes>, providerValid: (string, Option<Bytes>) -> bool): (env: Env)
    ensures env.tiles == tiles && env.dirs == dirs
  {
    Env(tiles, dirs,
        t => TargetPath(tmp, t),
        t => TileUrl(t),
        t => PbfUri(TargetPath(tmp, t), layerKey, geometryType),
        fetch, providerValid)
  }

  /** A run's paths and URLs tell tiles apart. */
  lemma RunEnvDistinguishes(tmp: Path, tiles: seq<Tile>, layerKey: string, geometryType: string, dirs: set<Path>,
                            fetch: string -> Option<Bytes>, providerValid: (string, Option<Bytes>) -> bool)
    ensures Distinguishes(RunEnv(tmp, tiles, layerKey, geometryType, dirs, fetch, providerValid))
  {
    var env := RunEnv(tmp, tiles, layerKey, geometryType, dirs, fetch, providerValid);
    forall t1, t2 | env.path(t1) == env.path(t2)
      ensures t1 == t2
    {
      TargetPathInjective(tmp, t1, t2);
    }
    forall t1, t2 | env.url(t1) == env.url(t2)
      ensures t1 == t2
    {
      TileUrlInjective(t1, t2);
    }
  }

  /** Tile `i` of the run's index gets the cache path, URL and URI that
      `run` forms for it, and its `z/x` directory exists. */
  ghost predicate FormsTile(env: Env, tmp: Path, layerKey: string, geometryType: string, i: nat)
    requires i < |env.tiles|
  {
    var t := env.tiles[i];
    && env.path(t) == TargetPath(tmp, t)
    && env.url(t) == TileUrl(t)
    && env.uri(t) == PbfUri(TargetPath(tmp, t), layerKey, geometryType)
    && XyzDir(tmp, t) in env.dirs
  }

  /** Every tile of the run's index is formed as `run` forms it. */
  ghost predicate FormsTiles(env: Env, tmp: Path, layerKey: string, geometryType: string)
  {
    forall i | 0 <= i < |env.tiles| :: FormsTile(env, tmp, layerKey, geometryType, i)
  }

  lemma RunEnvForms(tmp: Path, tiles: seq<Tile>, layerKey: string, geometryType: string, dirs: set<Path>,
                    fetch: string -> Option<Bytes>, providerValid: (string, Option<Bytes>) -> bool)
    requires forall i | 0 <= i < |tiles| :: XyzDir(tmp, tiles[i]) in dirs
    ensures FormsTiles(RunEnv(tmp, tiles, layerKey, geometryType, dirs, fetch, providerValid), tmp, layerKey, geometryType)
  {
  }

  /** The URI a run hands to OGR for any tile splits back at `|` into the
      tile's cache path, the layer option and the geometry option of the
      layer's data type, provided neither the layer key nor a component of
      `tmp` contains a `|`. */
  lemma RunUriFields(tmp: Path, tiles: seq<Tile>, layerKey: string, dataType: string, dirs: set<Path>,
                     fetch: string -> Option<Bytes>, providerValid: (string, Option<Bytes>) -> bool, t: Tile)
    requires forall k | 0 <= k < |tmp| :: '|' !in tmp[k]
    requires '|' !in layerKey
    ensures var geometryType := TranslateGsiType(dataType);
            var env := RunEnv(tmp, tiles, layerKey, geometryType, dirs, fetch, providerValid);
            Split(env.uri(t), '|')
              == [PathString(TargetPath(tmp, t)), "layername=" + layerKey, "geometrytype=" + geometryType]
  {
    var path := TargetPath(tmp, t);
    var z, x, y := IntToDecimal(t.z), IntToDecimal(t.x), IntToDecimal(t.y);
    assert path == tmp + [z, x, y + ".pbf"];
    assert '|' !in z && '|' !in x && '|' !in y + ".pbf";
    assert forall k | 0 <= k < |path| :: '|' !in path[k] by {
      forall k | 0 <= k < |path|
        ensures '|' !in path[k]
      {
        if k >= |tmp| {
          assert path[k] in [z, x, y + ".pbf"];
        }
      }
    }
    TranslateGsiTypeNoBar(dataType);
    PbfUriFields(path, layerKey, TranslateGsiType(dataType));
  }

  class TileDownloader {
    /** `TMP_PATH`: `vtdownloader` under the system temporary directory. */
    const tmpPath: Path
    const tileindex: seq<Tile>
    const layerKey: string
    var mergedlayer: Option<MergedLayer>
    /** The values emitted on `progressChanged`, in order. */
    var progressChanged: seq<int>
    /** The values emitted on `downloadFinished`, in order. */
    var downloadFinished: seq<bool>

    constructor (tempDir: Path, tileindex: seq<Tile>, layerKey: string)
      ensures tmpPath == tempDir + ["vtdownloader"]
      ensures this.tileindex == tileindex && this.layerKey == layerKey
      ensures mergedlayer == None && progressChanged == [] && downloadFinished == []
    {
      tmpPath := tempDir + ["vtdownloader"];
      this.tileindex := tileindex;
      this.layerKey := layerKey;
      mergedlayer := None;
      progressChanged := [];
      downloadFinished := [];
    }

    /** `make_xyz_dirs`: `os.makedirs(TMP_PATH/z/x, exist_ok=True)` for each
        tile in turn. The first call that raises ends it (`ok` is false);
        the directories of the tiles before it have been created. */
    method MakeXyzDirs(fs: FileSystem) returns (ok: bool)
      requires fs.Valid()
      modifies fs
      ensures fs.Valid() && fs.files == old(fs.files)
      ensures var f := FirstBlocked(old(fs.files), tmpPath, tileindex);
              && (ok <==> f == |tileindex|)
              && fs.dirs == old(fs.dirs) + XyzAncestry(tmpPath, tileindex, f)
    {
      ghost var f := FirstBlocked(fs.files, tmpPath, tileindex);
      var i := 0;
      while i < |tileindex|
        invariant 0 <= i <= |tileindex| && FirstBlockedFrom(fs.files, tmpPath, tileindex, i) == f
        invariant fs.Valid() && fs.files == old(fs.files)
        invariant fs.dirs == old(fs.dirs) + XyzAncestry(tmpPath, tileindex, i)
      {
        var made := fs.MakeDirs(XyzDir(tmpPath, tileindex[i]));
        if !made {
          return false;
        }
        i := i + 1;
      }
      return true;
    }

    /** `make_xyz_dirs` run twice on the same cache: thanks to
        `exist_ok=True` the second run fails exactly when the first did, at
        the same tile, and creates no directory the first did not. */
    method MakeXyzDirsTwice(fs: FileSystem) returns (ok1: bool, ok2: bool, ghost dirs1: set<Path>)
      requires fs.Valid()
      modifies fs
      ensures ok1 == ok2
      ensures fs.Valid() && fs.files == old(fs.files)
      ensures dirs1 == old(fs.dirs) + XyzAncestry(tmpPath, tileindex, FirstBlocked(old(fs.files), tmpPath, tileindex))
      ensures fs.dirs == dirs1
    {
      ok1 := MakeXyzDirs(fs);
      dirs1 := fs.dirs;
      ok2 := MakeXyzDirs(fs);
    }

    /** One pass of `run`'s loop up to the provider check: download tile
        `i` unless its path exists (`ok` is false when `urlopen` raises),
        then form its URI and ask the provider whether to keep it. */
    method LoadTile(fs: FileSystem, web: Web, providerValid: (string, Option<Bytes>) -> bool,
                    geometrytype: string, i: nat, ghost env: Env)
      returns (ok: bool, keep: bool, pbfuri: string)
      requires fs.Valid()
      requires env.tiles == tileindex && env.dirs == fs.dirs && env.fetch == web.responses
      requires env.providerValid == providerValid
      requires i < |tileindex| && FormsTile(env, tmpPath, layerKey, geometrytype, i)
      modifies fs, web
      ensures fs.Valid() && fs.dirs == old(fs.dirs)
      ensures var o := Iteration(env, old(fs.files), i);
              && ok == !o.raised
              && fs.files == o.files
              && web.requested == old(web.requested) + o.requested
              && keep == o.kept
              && pbfuri == env.uri(tileindex[i])
    {
      var xyz := tileindex[i];
      var currentTileurl := TileUrl(xyz);
      var targetPath := TargetPath(tmpPath, xyz);
      if !fs.Exists(targetPath) {
        var pbfdata := web.UrlOpen(currentTileurl);
        if pbfdata.None? {
          return false, false, PbfUri(targetPath, layerKey, geometrytype);
        }
        assert targetPath[..|targetPath| - 1] == XyzDir(tmpPath, xyz);
        fs.WriteFile(targetPath, pbfdata.value);
      }
      pbfuri := PbfUri(targetPath, layerKey, geometrytype);
      keep := providerValid(pbfuri, fs.Content(targetPath));
      ok := true;
    }

    /** The downloader's state matches loop state `job`: the cache holds
        `job`'s files, the collected URIs are `job`'s, and `job`'s
        emissions and requests follow those made before the loop. */
    ghost predicate Records(fs: FileSystem, web: Web, pbfuris: seq<string>, job: Job,
                            progress0: seq<int>, requested0: seq<string>)
      reads this, fs, web
    {
      && fs.Valid()
      && fs.files == job.files
      && pbfuris == job.uris
      && progressChanged == progress0 + job.progress
      && web.requested == requested0 + job.fetched
    }

    /** One pass of `run`'s loop: load tile `i`, then keep its URI and emit
        `i + 1` on `progressChanged` when the provider accepts it; the
        state goes from the loop's after `i` iterations to that after
        `i + 1`. */
    method VisitTile(fs: FileSystem, web: Web, providerValid: (string, Option<Bytes>) -> bool,
                     geometrytype: string, i: nat, pbfuris: seq<string>,
                     ghost env: Env, ghost files0: map<Path, Bytes>, ghost progress0: seq<int>, ghost requested0: seq<string>)
      returns (ok: bool, pbfuris': seq<string>)
      requires env.tiles == tileindex && env.dirs == fs.dirs && env.fetch == web.responses
      requires env.providerValid == providerValid
      requires i < |tileindex| && FormsTiles(env, tmpPath, layerKey, geometrytype)
      requires !Processed(env, files0, i).aborted
      requires Records(fs, web, pbfuris, Processed(env, files0, i), progress0, requested0)
      modifies this`progressChanged, fs, web
      ensures fs.dirs == old(fs.dirs)
      ensures ok == !Processed(env, files0, i + 1).aborted
      ensures Records(fs, web, pbfuris', Processed(env, files0, i + 1), progress0, requested0)
    {
      ghost var job := Processed(env, files0, i);
      var keep, pbfuri;
      ok, keep, pbfuri := LoadTile(fs, web, providerValid, geometrytype, i, env);
      ghost var o := Iteration(env, job.files, i);
      assert Processed(env, files0, i + 1) == Step(env, job, i);
      assert (requested0 + job.fetched) + o.requested == requested0 + (job.fetched + o.requested);
      pbfuris' := pbfuris;
      if keep {
        pbfuris' := pbfuris + [pbfuri];
        progressChanged := progressChanged + [i + 1];
        assert (progress0 + job.progress) + [i + 1] == progress0 + (job.progress + [i + 1]);
      }
    }

    /** `run`'s loop over the tile index. A `urlopen` that raises ends the
        loop (`ok` is false). */
    method DownloadTiles(fs: FileSystem, web: Web, providerValid: (string, Option<Bytes>) -> bool,
                         geometrytype: string, ghost env: Env)
      returns (ok: bool, pbfuris: seq<string>)
      requires fs.Valid()
      requires env.tiles == tileindex && env.dirs == fs.dirs && env.fetch == web.responses
      requires env.providerValid == providerValid
      requires FormsTiles(env, tmpPath, layerKey, geometrytype)
      modifies this`progressChanged, fs, web
      ensures fs.dirs == old(fs.dirs)
      ensures var job := Processed(env, old(fs.files), |tileindex|);
              && ok == !job.aborted
              && Records(fs, web, pbfuris, job, old(progressChanged), old(web.requested))
    {
      ghost var files0 := fs.files;
      ghost var requested0 := web.requested;
      ghost var progress0 := progressChanged;
      pbfuris := [];
      var i := 0;
      while i < |tileindex|
        invariant 0 <= i <= |tileindex| && fs.dirs == env.dirs
        invariant !Processed(env, files0, i).aborted
        invariant Records(fs, web, pbfuris, Processed(env, files0, i), progress0, requested0)
      {
        ok, pbfuris := VisitTile(fs, web, providerValid, geometrytype, i, pbfuris, env, files0, progress0, requested0);
        if !ok {
          AbortSticks(env, files0, i + 1, |tileindex|);
          return;
        }
        i := i + 1;
      }
      ok := true;
    }

    /** `run`: make the cache directories, download and check the tiles,
        and merge the kept URIs into a layer named after the layer key. A
        `makedirs` or `urlopen` that raises ends the run there: nothing is
        merged and `downloadFinished` is not emitted. */
    method Run(fs: FileSystem, web: Web, providerValid: (string, Option<Bytes>) -> bool,
               sourceLayers: map<string, LayerSpec>)
      requires fs.Valid() && layerKey in sourceLayers
      modifies this, fs, web
      ensures fs.Valid()
      ensures var f := FirstBlocked(old(fs.files), tmpPath, tileindex);
              && fs.dirs == old(fs.dirs) + XyzAncestry(tmpPath, tileindex, f)
              && (f < |tileindex| ==>
                    && fs.files == old(fs.files) && web.requested == old(web.requested)
                    && progressChanged == old(progressChanged) && mergedlayer == old(mergedlayer)
                    && downloadFinished == old(downloadFinished))
      ensures FirstBlocked(old(fs.files), tmpPath, tileindex) == |tileindex| ==>
              var geometryType := TranslateGsiType(sourceLayers[layerKey].dataType);
              var env := RunEnv(tmpPath, tileindex, layerKey, geometryType, fs.dirs, web.responses, providerValid);
              var job := Processed(env, old(fs.files), |tileindex|);
              && fs.files == job.files
              && web.requested == old(web.requested) + job.fetched
              && progressChanged == old(progressChanged) + job.progress
              && (if job.aborted then mergedlayer == old(mergedlayer) && downloadFinished == old(downloadFinished)
                  else mergedlayer == Some(MergedLayer(job.uris, layerKey))
                       && downloadFinished == old(downloadFinished) + [true])
    {
      var dirsMade := MakeXyzDirs(fs);
      if !dirsMade {
        return;
      }
      var geometrytype := TranslateGsiType(sourceLayers[layerKey].dataType);
      ghost var env := RunEnv(tmpPath, tileindex, layerKey, geometrytype, fs.dirs, web.responses, providerValid);
      XyzDirsExist(tmpPath, tileindex);
      RunEnvForms(tmpPath, tileindex, layerKey, geometrytype, fs.dirs, web.responses, providerValid);
      var ok, pbfuris := DownloadTiles(fs, web, providerValid, geometrytype, env);
      if !ok {
        return;
      }
      mergedlayer := Some(MergedLayer(pbfuris, layerKey));
      downloadFinished := downloadFinished + [true];
    }
  }
}
