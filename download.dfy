/** The tile loop of `TileDownloader.run` as functions of its inputs: what
    one iteration does (`Step`), what the loop has done after `k` tiles
    (`Processed`), and, beside them, a direct description of the outcome
    (`Content`, `KeptUris`, `KeptProgress`, `Downloads`) that the lemmas
    prove the loop meets. */
module Download {
  import opened Strings
  import opened FileSystem
  import opened Tiles

  /** What a run depends on besides the cache files: the tile index, the
      directories that exist once `make_xyz_dirs` has run, how a tile's
      cache path, download URL and OGR data source URI are formed, the
      network (`urlopen(url).read()`, `None` when it raises) and the OGR
      provider's validity verdict on a URI and the bytes found at its path.
      `Downloader.RunEnv` fixes `path`, `url` and `uri` to
      `Tiles.TargetPath`, `Tiles.TileUrl` and `Tiles.PbfUri`; the lemmas
      here hold for any derivation that tells tiles apart. */
  datatype Env = Env(
    tiles: seq<Tile>,
    dirs: set<Path>,
    path: Tile -> Path,
    url: Tile -> string,
    uri: Tile -> string,
    fetch: string -> Option<Bytes>,
    providerValid: (string, Option<Bytes>) -> bool)

  /** Distinct tiles have distinct cache paths and distinct URLs. */
  ghost predicate Distinguishes(env: Env)
  {
    && (forall t1, t2 | env.path(t1) == env.path(t2) :: t1 == t2)
    && (forall t1, t2 | env.url(t1) == env.url(t2) :: t1 == t2)
  }

  /** State of the loop: the cache files, the collected `pbfuris`, the
      progress values emitted, the URLs requested from the network, and
      whether a request raised. */
  datatype Job = Job(
    files: map<Path, Bytes>,
    uris: seq<string>,
    progress: seq<int>,
    fetched: seq<string>,
    aborted: bool)

  /** What iteration `i` does to cache `files`: the cache afterwards, the
      URLs it requested, whether the provider accepted the tile, and whether
      the request raised. */
  datatype Outcome = Outcome(files: map<Path, Bytes>, requested: seq<string>, kept: bool, raised: bool)

  /** Iteration `i`: download the tile unless its path exists, then ask the
      provider about the tile's URI and the bytes at its path. */
  function Iteration(env: Env, files: map<Path, Bytes>, i: nat): Outcome
    requires i < |env.tiles|
  {
    var t := env.tiles[i];
    var path := env.path(t);
    var url := env.url(t);
    if path in files || path in env.dirs then
      Outcome(files, [], env.providerValid(env.uri(t), Seen(files, path)), false)
    else match env.fetch(url)
      case None => Outcome(files, [url], false, true)
      case Some(data) => Outcome(files[path := data], [url], env.providerValid(env.uri(t), Some(data)), false)
  }

  /** The loop state after iteration `i`: an accepted tile's URI is
      collected and `i + 1` emitted. */
  function Step(env: Env, job: Job, i: nat): Job
    requires i < |env.tiles|
  {
    var o := Iteration(env, job.files, i);
    if o.kept then
      Job(o.files, job.uris + [env.uri(env.tiles[i])], job.progress + [i + 1], job.fetched + o.requested, o.raised)
    else Job(o.files, job.uris, job.progress, job.fetched + o.requested, o.raised)
  }

  /** A request that raises leaves the cache as it was and keeps nothing. */
  lemma IterationRaised(env: Env, files: map<Path, Bytes>, i: nat)
    requires i < |env.tiles|
    ensures var o := Iteration(env, files, i);
            o.raised ==> o.files == files && !o.kept && o.requested == [env.url(env.tiles[i])]
  {
  }

  /** `os.path.exists` holds for a directory as well as a file: when a
      directory sits at tile `i`'s cache path, nothing is requested or
      written, and the provider is asked about the URI with no bytes to
      read. */
  lemma DirectoryAtPath(env: Env, files: map<Path, Bytes>, i: nat)
    requires i < |env.tiles|
    requires env.path(env.tiles[i]) in env.dirs && env.path(env.tiles[i]) !in files
    ensures var o := Iteration(env, files, i);
            && o.files == files && o.requested == [] && !o.raised
            && o.kept == env.providerValid(env.uri(env.tiles[i]), None)
  {
  }

  /** The loop after its first `k` iterations, started on cache `files0`;
      once a request has raised, nothing further happens. */
  function Processed(env: Env, files0: map<Path, Bytes>, k: nat): Job
    requires k <= |env.tiles|
  {
    if k == 0 then Job(files0, [], [], [], false)
    else
      var job := Processed(env, files0, k - 1);
      if job.aborted then job else Step(env, job, k - 1)
  }

  // ---------------------------------------------------------------------
  // The outcome described directly

  /** The bytes the provider sees for tile `t`: the cached file if there was
      one, nothing if a directory stands at the path, the download
      otherwise. */
  function Content(env: Env, files0: map<Path, Bytes>, t: Tile): Option<Bytes>
  {
    var path := env.path(t);
    if path in files0 then Some(files0[path])
    else if path in env.dirs then None
    else env.fetch(env.url(t))
  }

  /** Tile `t` must be downloaded and the request raises. */
  predicate FetchFails(env: Env, files0: map<Path, Bytes>, t: Tile)
  {
    var path := env.path(t);
    path !in files0 && path !in env.dirs && env.fetch(env.url(t)).None?
  }

  predicate Kept(env: Env, files0: map<Path, Bytes>, t: Tile)
  {
    env.providerValid(env.uri(t), Content(env, files0, t))
  }

  /** The URIs of the accepted tiles among the first `k`, in index order. */
  function KeptUris(env: Env, files0: map<Path, Bytes>, k: nat): seq<string>
    requires k <= |env.tiles|
  {
    if k == 0 then []
    else
      var t := env.tiles[k - 1];
      if Kept(env, files0, t) then KeptUris(env, files0, k - 1) + [env.uri(t)]
      else KeptUris(env, files0, k - 1)
  }

  /** The 1-based positions of the accepted tiles among the first `k`. */
  function KeptProgress(env: Env, files0: map<Path, Bytes>, k: nat): seq<int>
    requires k <= |env.tiles|
  {
    if k == 0 then []
    else if Kept(env, files0, env.tiles[k - 1]) then KeptProgress(env, files0, k - 1) + [k]
    else KeptProgress(env, files0, k - 1)
  }

  /** Tile `i` is the first occurrence of its tile and its path is absent. */
  predicate NeedsDownload(env: Env, files0: map<Path, Bytes>, i: nat)
    requires i < |env.tiles|
  {
    var path := env.path(env.tiles[i]);
    path !in files0 && path !in env.dirs && env.tiles[i] !in env.tiles[..i]
  }

  /** The URLs requested while processing the first `k` tiles. */
  function Downloads(env: Env, files0: map<Path, Bytes>, k: nat): seq<string>
    requires k <= |env.tiles|
  {
    if k == 0 then []
    else if NeedsDownload(env, files0, k - 1) then Downloads(env, files0, k - 1) + [env.url(env.tiles[k - 1])]
    else Downloads(env, files0, k - 1)
  }

  /** Entries present at the start are never overwritten or removed. */
  ghost predicate FilesKept(files0: map<Path, Bytes>, files: map<Path, Bytes>)
  {
    forall p | p in files0 :: p in files && files[p] == files0[p]
  }

  /** Every new entry is the cache file of one of the first `k` tiles. */
  ghost predicate OnlyTilesWritten(env: Env, files0: map<Path, Bytes>, files: map<Path, Bytes>, k: nat)
    requires k <= |env.tiles|
  {
    forall p | p in files && p !in files0 ::
      exists i | 0 <= i < k :: p == env.path(env.tiles[i])
  }

  /** The paths of the first `k` tiles exist and hold what the direct
      description says. */
  ghost predicate TilesPresent(env: Env, files0: map<Path, Bytes>, files: map<Path, Bytes>, k: nat)
    requires k <= |env.tiles|
  {
    forall i | 0 <= i < k ::
      var path := env.path(env.tiles[i]);
      (path in files || path in env.dirs) && Seen(files, path) == Content(env, files0, env.tiles[i])
  }

  ghost predicate CacheConsistent(env: Env, files0: map<Path, Bytes>, files: map<Path, Bytes>, k: nat)
    requires k <= |env.tiles|
  {
    FilesKept(files0, files) && OnlyTilesWritten(env, files0, files, k) &&
    TilesPresent(env, files0, files, k)
  }

  /** The loop state after `k` tiles agrees with the direct description. */
  ghost predicate Consistent(env: Env, files0: map<Path, Bytes>, job: Job, k: nat)
    requires k <= |env.tiles|
  {
    && !job.aborted
    && CacheConsistent(env, files0, job.files, k)
    && job.uris == KeptUris(env, files0, k)
    && job.progress == KeptProgress(env, files0, k)
    && job.fetched == Downloads(env, files0, k)
  }

  /** At tile `i` the loop finds the path present exactly when the direct
      description says no download is needed, and then finds the content
      the description gives. */
  lemma {:induction false} PresentBeforeStep(env: Env, files0: map<Path, Bytes>, files: map<Path, Bytes>, i: nat)
    requires Distinguishes(env)
    requires i < |env.tiles| && CacheConsistent(env, files0, files, i)
    ensures var path := env.path(env.tiles[i]);
            (path in files || path in env.dirs <==> !NeedsDownload(env, files0, i)) &&
            (path in files || path in env.dirs ==> Seen(files, path) == Content(env, files0, env.tiles[i]))
  {
    var t := env.tiles[i];
    var path := env.path(t);
    if path in files && path !in files0 {
      var j :| 0 <= j < i && path == env.path(env.tiles[j]);
    }
    if !(path in files || path in env.dirs) {
      forall j | 0 <= j < i
        ensures env.tiles[j] != t
      {
      }
    } else if path !in files0 && path !in env.dirs {
      var j :| 0 <= j < i && path == env.path(env.tiles[j]);
    }
  }

  /** Writing tile `i`'s file, absent until now, keeps the new entries
      among the tiles' files. */
  lemma {:induction false} WrittenGrows(env: Env, files0: map<Path, Bytes>, files: map<Path, Bytes>,
                                        i: nat, data: Bytes)
    requires i < |env.tiles| && OnlyTilesWritten(env, files0, files, i)
    ensures OnlyTilesWritten(env, files0, files[env.path(env.tiles[i]) := data], i + 1)
  {
    var path := env.path(env.tiles[i]);
    forall p | p in files[path := data] && p !in files0
      ensures exists j | 0 <= j < i + 1 :: p == env.path(env.tiles[j])
    {
      if p != path {
        var j :| 0 <= j < i && p == env.path(env.tiles[j]);
      }
    }
  }

  /** Writing a path no earlier tile occupies leaves their contents as they
      were. */
  lemma {:induction false} PresentGrows(env: Env, files0: map<Path, Bytes>, files: map<Path, Bytes>,
                                        i: nat, data: Bytes)
    requires i < |env.tiles| && TilesPresent(env, files0, files, i)
    requires env.path(env.tiles[i]) !in files && env.path(env.tiles[i]) !in env.dirs
    requires Content(env, files0, env.tiles[i]) == Some(data)
    ensures TilesPresent(env, files0, files[env.path(env.tiles[i]) := data], i + 1)
  {
    var path := env.path(env.tiles[i]);
    forall j | 0 <= j < i
      ensures env.path(env.tiles[j]) != path
    {
    }
  }

  /** Iteration `i` keeps the cache consistent and leaves the tile's path
      holding its content. */
  lemma {:induction false} CachedConsistent(env: Env, files0: map<Path, Bytes>, files: map<Path, Bytes>, i: nat)
    requires Distinguishes(env)
    requires i < |env.tiles| && CacheConsistent(env, files0, files, i)
    requires !FetchFails(env, files0, env.tiles[i])
    ensures CacheConsistent(env, files0, Iteration(env, files, i).files, i + 1)
    ensures Seen(Iteration(env, files, i).files, env.path(env.tiles[i]))
            == Content(env, files0, env.tiles[i])
  {
    var t := env.tiles[i];
    var path := env.path(t);
    PresentBeforeStep(env, files0, files, i);
    if !(path in files || path in env.dirs) {
      var data := env.fetch(env.url(t)).value;
      assert path !in files0;
      WrittenGrows(env, files0, files, i, data);
      PresentGrows(env, files0, files, i, data);
    } else {
      assert OnlyTilesWritten(env, files0, files, i + 1);
    }
  }

  lemma {:induction false} StepConsistent(env: Env, files0: map<Path, Bytes>, job: Job, i: nat)
    requires Distinguishes(env)
    requires i < |env.tiles| && Consistent(env, files0, job, i)
    requires !FetchFails(env, files0, env.tiles[i])
    ensures Consistent(env, files0, Step(env, job, i), i + 1)
  {
    PresentBeforeStep(env, files0, job.files, i);
    CachedConsistent(env, files0, job.files, i);
  }

  /** Without a failed request among the first `k` tiles the loop finishes
      them consistently with the direct description. */
  lemma {:induction false} ProcessedConsistent(env: Env, files0: map<Path, Bytes>, k: nat)
    requires Distinguishes(env)
    requires k <= |env.tiles|
    requires forall i | 0 <= i < k :: !FetchFails(env, files0, env.tiles[i])
    ensures Consistent(env, files0, Processed(env, files0, k), k)
  {
    if k > 0 {
      ProcessedConsistent(env, files0, k - 1);
      var job := Processed(env, files0, k - 1);
      StepConsistent(env, files0, job, k - 1);
      assert Processed(env, files0, k) == Step(env, job, k - 1);
    }
  }

  // ---------------------------------------------------------------------
  // A request that raises

  /** Once a request has raised, later iterations change nothing. */
  lemma {:induction false} AbortSticks(env: Env, files0: map<Path, Bytes>, k: nat, m: nat)
    requires k <= m <= |env.tiles| && Processed(env, files0, k).aborted
    ensures Processed(env, files0, m) == Processed(env, files0, k)
    decreases m
  {
    if m > k {
      AbortSticks(env, files0, k, m - 1);
    }
  }

  /** When the first tile whose download raises is tile `f`, the run stops
      there: the URIs and progress are those of the tiles before `f`, the
      failed URL is the last one requested, and the files written before
      the failure stay in the cache. */
  lemma AbortedAtFirstFailure(env: Env, files0: map<Path, Bytes>, f: nat, k: nat)
    requires Distinguishes(env)
    requires f < k <= |env.tiles|
    requires FetchFails(env, files0, env.tiles[f])
    requires forall i | 0 <= i < f :: !FetchFails(env, files0, env.tiles[i])
    ensures var job := Processed(env, files0, k);
            && job.aborted
            && job.uris == KeptUris(env, files0, f)
            && job.progress == KeptProgress(env, files0, f)
            && job.fetched == Downloads(env, files0, f) + [env.url(env.tiles[f])]
            && CacheConsistent(env, files0, job.files, f)
  {
    ProcessedConsistent(env, files0, f);
    forall j | 0 <= j < f
      ensures env.tiles[j] != env.tiles[f]
    {
    }
    PresentBeforeStep(env, files0, Processed(env, files0, f).files, f);
    AbortSticks(env, files0, f + 1, k);
  }

  // ---------------------------------------------------------------------
  // What is requested from the network

  /** Each tile accounts for at most one request. */
  lemma {:induction false} DownloadsBound(env: Env, files0: map<Path, Bytes>, k: nat)
    requires k <= |env.tiles|
    ensures |Downloads(env, files0, k)| <= k
  {
    if k > 0 {
      DownloadsBound(env, files0, k - 1);
    }
  }

  /** The `m`-th URL requested is that of a tile `i` whose cache path was
      absent at the start and that did not occur earlier in the index. */
  lemma {:induction false} DownloadSource(env: Env, files0: map<Path, Bytes>, k: nat, m: nat) returns (i: nat)
    requires k <= |env.tiles| && m < |Downloads(env, files0, k)|
    ensures i < k && NeedsDownload(env, files0, i)
    ensures Downloads(env, files0, k)[m] == env.url(env.tiles[i])
  {
    var d0 := Downloads(env, files0, k - 1);
    var d := Downloads(env, files0, k);
    if m < |d0| {
      i := DownloadSource(env, files0, k - 1, m);
      assert d[m] == d0[m];
    } else {
      i := k - 1;
    }
  }

  /** Every tile whose cache path is absent at the start is requested. */
  lemma {:induction false} DownloadComplete(env: Env, files0: map<Path, Bytes>, k: nat, i: nat)
    requires i < k <= |env.tiles| && NeedsDownload(env, files0, i)
    ensures env.url(env.tiles[i]) in Downloads(env, files0, k)
  {
    var d0 := Downloads(env, files0, k - 1);
    if i < k - 1 {
      DownloadComplete(env, files0, k - 1, i);
      assert Downloads(env, files0, k)[..|d0|] == d0;
    }
  }

  /** No URL is requested twice in one run, even when the tile index lists
      a tile more than once. */
  lemma {:induction false} DownloadsDistinct(env: Env, files0: map<Path, Bytes>, k: nat)
    requires Distinguishes(env)
    requires k <= |env.tiles|
    ensures forall a, b | 0 <= a < b < |Downloads(env, files0, k)| ::
              Downloads(env, files0, k)[a] != Downloads(env, files0, k)[b]
  {
    if k > 0 {
      DownloadsDistinct(env, files0, k - 1);
      var d0 := Downloads(env, files0, k - 1);
      var d := Downloads(env, files0, k);
      if NeedsDownload(env, files0, k - 1) {
        var t := env.tiles[k - 1];
        forall a | 0 <= a < |d0|
          ensures d0[a] != env.url(t)
        {
          var i := DownloadSource(env, files0, k - 1, a);
          assert env.tiles[i] == env.tiles[..k - 1][i];
        }
        assert d == d0 + [env.url(t)];
      } else {
        assert d == d0;
      }
    }
  }

  // ---------------------------------------------------------------------
  // The collected URIs and the progress values

  /** One progress value per collected URI, at most one per tile. */
  lemma {:induction false} KeptLength(env: Env, files0: map<Path, Bytes>, k: nat)
    requires k <= |env.tiles|
    ensures |KeptUris(env, files0, k)| == |KeptProgress(env, files0, k)| <= k
  {
    if k > 0 {
      KeptLength(env, files0, k - 1);
    }
  }

  /** The `m`-th progress value is the 1-based position of an accepted
      tile, and the `m`-th URI collected is that tile's. */
  lemma {:induction false} KeptEntry(env: Env, files0: map<Path, Bytes>, k: nat, m: nat)
    requires k <= |env.tiles| && m < |KeptProgress(env, files0, k)|
    ensures var i := KeptProgress(env, files0, k)[m] - 1;
            && 0 <= i < k
            && Kept(env, files0, env.tiles[i])
            && m < |KeptUris(env, files0, k)|
            && KeptUris(env, files0, k)[m] == env.uri(env.tiles[i])
  {
    KeptLength(env, files0, k);
    KeptLength(env, files0, k - 1);
    var p0 := KeptProgress(env, files0, k - 1);
    if m < |p0| {
      KeptEntry(env, files0, k - 1, m);
    }
  }

  /** The progress values strictly increase. */
  lemma {:induction false} KeptIncreasing(env: Env, files0: map<Path, Bytes>, k: nat)
    requires k <= |env.tiles|
    ensures forall a, b | 0 <= a < b < |KeptProgress(env, files0, k)| ::
              KeptProgress(env, files0, k)[a] < KeptProgress(env, files0, k)[b]
  {
    if k > 0 {
      KeptIncreasing(env, files0, k - 1);
      var p0 := KeptProgress(env, files0, k - 1);
      var p := KeptProgress(env, files0, k);
      forall a | 0 <= a < |p0|
        ensures p0[a] < k
      {
        KeptEntry(env, files0, k - 1, a);
      }
    }
  }

  /** Every accepted tile's position is among the progress values. */
  lemma {:induction false} KeptComplete(env: Env, files0: map<Path, Bytes>, k: nat, i: nat)
    requires i < k <= |env.tiles| && Kept(env, files0, env.tiles[i])
    ensures i + 1 in KeptProgress(env, files0, k)
  {
    if i < k - 1 {
      KeptComplete(env, files0, k - 1, i);
    }
  }

  // ---------------------------------------------------------------------
  // Running again on a filled cache

  /** With every tile's path present, nothing is requested. */
  lemma {:induction false} NothingToDownload(env: Env, files0: map<Path, Bytes>, k: nat)
    requires k <= |env.tiles|
    requires forall i | 0 <= i < k :: env.path(env.tiles[i]) in files0 ||
                                       env.path(env.tiles[i]) in env.dirs
    ensures Downloads(env, files0, k) == []
  {
    if k > 0 {
      NothingToDownload(env, files0, k - 1);
      assert !NeedsDownload(env, files0, k - 1);
    }
  }

  /** The accepted tiles depend only on the content each tile presents. */
  lemma {:induction false} KeptSameContent(env: Env, files0: map<Path, Bytes>, files1: map<Path, Bytes>, k: nat)
    requires k <= |env.tiles|
    requires forall i | 0 <= i < k :: Content(env, files1, env.tiles[i]) == Content(env, files0, env.tiles[i])
    ensures KeptUris(env, files1, k) == KeptUris(env, files0, k)
    ensures KeptProgress(env, files1, k) == KeptProgress(env, files0, k)
  {
    if k > 0 {
      KeptSameContent(env, files0, files1, k - 1);
    }
  }

  /** A second run over the cache a successful run left behind requests
      nothing, writes nothing, and collects the same URIs and progress
      values: the cache is reused. */
  lemma RerunFetchesNothing(env: Env, files0: map<Path, Bytes>)
    requires Distinguishes(env)
    requires forall i | 0 <= i < |env.tiles| :: !FetchFails(env, files0, env.tiles[i])
    ensures var first := Processed(env, files0, |env.tiles|);
            var second := Processed(env, first.files, |env.tiles|);
            && !second.aborted
            && second.fetched == []
            && second.files == first.files
            && second.uris == first.uris
            && second.progress == first.progress
  {
    var n := |env.tiles|;
    ProcessedConsistent(env, files0, n);
    var files1 := Processed(env, files0, n).files;
    forall i | 0 <= i < n
      ensures !FetchFails(env, files1, env.tiles[i])
      ensures Content(env, files1, env.tiles[i]) == Content(env, files0, env.tiles[i])
    {
    }
    ProcessedConsistent(env, files1, n);
    NothingToDownload(env, files1, n);
    KeptSameContent(env, files0, files1, n);
    var files2 := Processed(env, files1, n).files;
    assert files2.Keys == files1.Keys;
  }
}
