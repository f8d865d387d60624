/**
 * The filesystem as the archiver sees it, and `FileOperations`: directory
 * creation, the atomic write (write `name.tmp`, then rename it over the
 * target) and the YAML write built on it.
 *
 * A path is the list of its components below the root; the root itself is
 * `[]` and always exists as a directory.
 */
module Files {
  import opened Wrappers
  import opened JsonValues

  newtype byte = b: int | 0 <= b < 256

  type Path = seq<string>

  datatype FsError =
    | FileInTheWay(path: Path)    // a file stands where a directory is needed
    | IsADirectory(path: Path)    // a directory stands where a file is written
    | NotFound(path: Path)        // the parent directory or the source of a rename is missing
    | EmptyName                   // `with_suffix` on a path with an empty name

  function Parent(p: Path): Path
    requires p != []
  {
    p[..|p| - 1]
  }

  /** The directories `mkdir(parents=True)` creates for `p`: `p` and its ancestors below the root. */
  function Ancestors(p: Path): set<Path> {
    set k | 1 <= k <= |p| :: p[..k]
  }

  /**
   * `p.with_suffix(p.suffix + ".tmp")`: the same directory, the file name with
   * ".tmp" appended; it is never the target itself.
   */
  function TmpPath(p: Path): (t: Path)
    requires p != []
    ensures |t| == |p| && t != p
    ensures Parent(t) == Parent(p)
    ensures t[|t| - 1] == p[|p| - 1] + ".tmp"
  {
    var t := Parent(p) + [p[|p| - 1] + ".tmp"];
    assert |t[|t| - 1]| == |p[|p| - 1]| + 4;
    t
  }

  /** Writing a file that did not exist adds its name, and only it, to the files new since `start`. */
  lemma NewFileNames(start: map<Path, seq<byte>>, before: map<Path, seq<byte>>, after: map<Path, seq<byte>>,
                     t: Path, data: seq<byte>, added: bool)
    requires start.Keys <= before.Keys
    requires after == (if added then before[t := data] else before) && (added ==> t !in before)
    ensures after.Keys - start.Keys == (before.Keys - start.Keys) + (if added then {t} else {})
    ensures t !in before.Keys - start.Keys || !added
  {
  }

  /** The files and directories of one disk. */
  class FileSystem {
    var files: map<Path, seq<byte>>
    var dirs: set<Path>

    constructor (files: map<Path, seq<byte>>, dirs: set<Path>)
      ensures this.files == files && this.dirs == dirs
    {
      this.files := files;
      this.dirs := dirs;
    }

    /** `Path.exists()`: a file or a directory. */
    predicate Exists(p: Path)
      reads this
    {
      p == [] || p in files || p in dirs
    }

    predicate IsDir(p: Path)
      reads this
    {
      p == [] || p in dirs
    }

    /** No file stands on `p` or on any of its ancestors. */
    predicate NoFileOn(p: Path)
      reads this
    {
      forall k :: 1 <= k <= |p| ==> p[..k] !in files
    }

    /**
     * `p.mkdir(parents=True, exist_ok=True)`: creates `p` and every missing
     * ancestor; fails, changing nothing, when a file stands on the way.
     */
    method MakeDirs(p: Path) returns (r: Result<(), FsError>)
      modifies this
      ensures r.Ok? <==> old(NoFileOn(p))
      ensures r.Ok? ==> dirs == old(dirs) + Ancestors(p) && IsDir(p)
      ensures r.Err? ==> dirs == old(dirs)
      ensures files == old(files)
    {
      if exists k :: 1 <= k <= |p| && p[..k] in files {
        return Err(FileInTheWay(p));
      }
      assert p != [] ==> p[..|p|] == p && p in Ancestors(p);
      dirs := dirs + Ancestors(p);
      return Ok(());
    }

    /** `open(p, "wb").write(data)`: creates or truncates the file `p`. */
    method WriteFile(p: Path, data: seq<byte>) returns (r: Result<(), FsError>)
      requires p != []
      modifies this
      ensures r.Ok? <==> old(!IsDir(p) && IsDir(Parent(p)))
      ensures r.Ok? ==> files == old(files)[p := data]
      ensures r.Err? ==> files == old(files)
      ensures dirs == old(dirs)
    {
      if IsDir(p) {
        return Err(IsADirectory(p));
      }
      if !IsDir(Parent(p)) {
        return Err(NotFound(Parent(p)));
      }
      files := files[p := data];
      return Ok(());
    }

    /** `src.replace(dst)` for a file `src`: `dst` now holds its bytes and `src` is gone. */
    method Replace(src: Path, dst: Path) returns (r: Result<(), FsError>)
      modifies this
      ensures r.Ok? <==> old(src in files && !IsDir(dst))
      ensures r.Ok? ==> files == (old(files) - {src})[dst := old(files)[src]]
      ensures r.Err? ==> files == old(files)
      ensures dirs == old(dirs)
    {
      if src !in files {
        return Err(NotFound(src));
      }
      if IsDir(dst) {
        return Err(IsADirectory(dst));
      }
      files := (files - {src})[dst := files[src]];
      return Ok(());
    }
  }

  /** When an atomic write of `target` succeeds: a name, no file on the parent chain, no directory at the temp path or the target. */
  predicate AtomicWriteSucceeds(fs: FileSystem, target: Path)
    reads fs
  {
    target != [] && fs.NoFileOn(Parent(target)) && !fs.IsDir(TmpPath(target)) && !fs.IsDir(target)
  }

  /**
   * `FileOperations.atomic_write_bytes`: creates the parent directories,
   * writes `data` to the temp path, renames it over the target and returns
   * `len(data)`. On success the target holds exactly `data`, the temp path is
   * gone and no other file changed. A failure leaves at most the temp file
   * behind.
   */
  method AtomicWriteBytes(fs: FileSystem, target: Path, data: seq<byte>) returns (r: Result<nat, FsError>)
    modifies fs
    ensures r.Ok? <==> old(AtomicWriteSucceeds(fs, target))
    ensures r.Ok? ==> r.value == |data|
    ensures r.Ok? ==> fs.files == (old(fs.files) - {TmpPath(target)})[target := data]
    ensures r.Ok? ==> fs.dirs == old(fs.dirs) + Ancestors(Parent(target))
    ensures r.Err? ==> fs.files == old(fs.files) || (target != [] && fs.files == old(fs.files)[TmpPath(target) := data])
    ensures r.Err? ==> old(fs.dirs) <= fs.dirs
  {
    if target == [] {
      return Err(EmptyName);
    }
    var made := fs.MakeDirs(Parent(target));
    if made.Err? {
      return Err(made.error);
    }
    var tmp := TmpPath(target);
    assert Parent(tmp) == Parent(target);
    var written := fs.WriteFile(tmp, data);
    if written.Err? {
      return Err(written.error);
    }
    var moved := fs.Replace(tmp, target);
    if moved.Err? {
      return Err(moved.error);
    }
    return Ok(|data|);
  }

  /**
   * `FileOperations.write_yaml`: the payload rendered by `yamlBytes` (the
   * `yaml.dump` text, UTF-8 encoded), written atomically; returns the byte count.
   */
  method WriteYaml(fs: FileSystem, target: Path, payload: Json, yamlBytes: Json -> seq<byte>) returns (r: Result<nat, FsError>)
    modifies fs
    ensures r.Ok? <==> old(AtomicWriteSucceeds(fs, target))
    ensures r.Ok? ==> r.value == |yamlBytes(payload)| && target in fs.files && fs.files[target] == yamlBytes(payload)
  {
    r := AtomicWriteBytes(fs, target, yamlBytes(payload));
  }

  /**
   * `FileOperations.create_dir`: only when nothing exists at `p` is it created
   * with its parents. Afterwards something exists at `p` whenever no error
   * was raised, and a second call changes nothing.
   */
  method CreateDir(fs: FileSystem, p: Path) returns (r: Result<(), FsError>)
    modifies fs
    ensures old(fs.Exists(p)) ==> r.Ok? && fs.files == old(fs.files) && fs.dirs == old(fs.dirs)
    ensures !old(fs.Exists(p)) ==> (r.Ok? <==> old(fs.NoFileOn(p)))
    ensures r.Ok? ==> fs.Exists(p)
    ensures fs.files == old(fs.files) && old(fs.dirs) <= fs.dirs
  {
    if fs.Exists(p) {
      return Ok(());
    }
    r := fs.MakeDirs(p);
  }
}
