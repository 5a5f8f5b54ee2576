/** The part of the local filesystem the tile cache touches: regular files
    with their bytes and a set of directories, addressed by component
    lists. The operations stand for `os.path.exists`, `os.makedirs(...,
    exist_ok=True)` and `open(path, 'wb').write(...)`. */
module FileSystem {

  datatype Option<T> = None | Some(value: T)

  /** A filesystem path as its list of components. */
  type Path = seq<string>

  type Bytes = seq<bv8>

  /** A path and all its non-empty leading parts: what `os.makedirs` ensures
      exists as directories. */
  function Ancestry(p: Path): (s: set<Path>)
    ensures forall k | 1 <= k <= |p| :: p[..k] in s
    ensures forall q | q in s :: 1 <= |q| <= |p| && q == p[..|q|]
  {
    set k | 1 <= k <= |p| :: p[..k]
  }

  /** `os.makedirs(p)` fails when `p` is empty or when `p` or one of its
      leading parts is a regular file. */
  predicate MakeDirsBlocked(files: map<Path, Bytes>, p: Path)
  {
    |p| == 0 || exists k | 1 <= k <= |p| :: p[..k] in files
  }

  /** The bytes a reader opening `p` as a file finds in `files`. */
  function Seen(files: map<Path, Bytes>, p: Path): (c: Option<Bytes>)
    ensures c.Some? <==> p in files
    ensures c.Some? ==> c.value == files[p]
  {
    if p in files then Some(files[p]) else None
  }

  class FileSystem {
    var files: map<Path, Bytes>
    var dirs: set<Path>

    /** Nothing is both a file and a directory. */
    ghost predicate Valid()
      reads this
    {
      files.Keys !! dirs
    }

    constructor (files0: map<Path, Bytes>, dirs0: set<Path>)
      requires files0.Keys !! dirs0
      ensures Valid() && files == files0 && dirs == dirs0
    {
      files, dirs := files0, dirs0;
    }

    /** `os.path.exists(p)`: true for files and directories alike, so a
        directory at `p` counts as present although no bytes can be read
        from it. */
    predicate Exists(p: Path): (e: bool)
      reads this
      ensures e <==> Content(p).Some? || p in dirs
    {
      p in files || p in dirs
    }

    /** What a reader opening `p` as a file finds. */
    function Content(p: Path): (c: Option<Bytes>)
      reads this
      ensures c.Some? <==> p in files
      ensures c.Some? ==> c.value == files[p]
    {
      Seen(files, p)
    }

    /** `os.makedirs(p, exist_ok=True)`: creates `p` and its missing leading
        directories; an existing directory is not an error. Fails, changing
        nothing, when `MakeDirsBlocked`. */
    method MakeDirs(p: Path) returns (ok: bool)
      requires Valid()
      modifies this
      ensures Valid() && files == old(files)
      ensures ok <==> !MakeDirsBlocked(old(files), p)
      ensures dirs == if ok then old(dirs) + Ancestry(p) else old(dirs)
    {
      ok := |p| > 0 && forall k | 1 <= k <= |p| :: p[..k] !in files;
      if ok {
        dirs := dirs + Ancestry(p);
      }
    }

    /** `open(p, mode='wb').write(data)`: the containing directory must exist
        and `p` must not be a directory. */
    method WriteFile(p: Path, data: Bytes)
      requires Valid()
      requires |p| > 0 && p[..|p| - 1] in dirs && p !in dirs
      modifies this
      ensures Valid() && dirs == old(dirs)
      ensures files == old(files)[p := data]
    {
      files := files[p := data];
    }
  }
}
