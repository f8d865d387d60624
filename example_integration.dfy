/**
 * `ExamplePhotoDownloader`: a downloader that consults a
 * `ConsistencyManager` before each photo, so that a photo another run has
 * already fetched is not fetched again. The "download" only creates an
 * empty file named after the photo.
 *
 * The filesystem is the `FileSystem` of the file operations; the lock
 * file's contents are the manager's ghost `disk`; the time written into the
 * lock file is a parameter. The loop is sequential in the source as well.
 */
module ExampleIntegration {
  import opened Wrappers
  import opened JsonValues
  import opened Files
  import opened Consistency
  import Functions

  /** The lock file's name inside the output folder when none is given. */
  const LockName: string := ".downloads_lock.json"

  /**
   * `_generate_photo_id`: `"{owner_id}_{id}"`, a missing key read as 0.
   * `.get` on a value that is not a dict raises: `None`.
   */
  function PhotoId(photo: Json): (r: Option<string>)
    ensures r.Some? <==> photo.Obj?
  {
    match photo
    case Obj(fields) => Some(ToStr(Lookup(fields, "owner_id").GetOr(Int(0))) + "_" + ToStr(Lookup(fields, "id").GetOr(Int(0))))
    case _ => None
  }

  /** With both keys present, the identifier is the stem of the name `download_photos` gives the photo's file. */
  lemma PhotoIdIsFileStem(photo: Json)
    requires photo.Obj? && Item(photo, "owner_id").Some? && Item(photo, "id").Some?
    ensures Functions.FileName(photo, "jpg") == Some(PhotoId(photo).value + ".jpg")
  {
    var owner, id := ToStr(Field(photo, "owner_id")), ToStr(Field(photo, "id"));
    assert owner + "_" + id + "." + "jpg" == owner + "_" + id + ".jpg";
  }

  /** A missing key is written as 0: a dict with neither key gets "0_0". */
  lemma PhotoIdDefaults(photo: Json)
    requires photo.Obj? && Item(photo, "owner_id").None? && Item(photo, "id").None?
    ensures PhotoId(photo) == Some("0_0")
  {
    assert ToStr(Int(0)) == "0";
    assert "0" + "_" + "0" == "0_0";
  }

  /** The file a photo with identifier `id` is saved as: `{id}.jpg` in the output folder. */
  function Target(dir: Path, id: string): (t: Path)
    ensures t != [] && Parent(t) == dir
  {
    dir + [id + ".jpg"]
  }

  /** The identifier of a photo, or "" for a value that is not a dict (no identifier can be made for it). */
  ghost function IdOf(photo: Json): string {
    if photo.Obj? then PhotoId(photo).value else ""
  }

  /** The identifiers of `photos`, in order. */
  ghost function IdsOf(photos: seq<Json>): (ids: seq<string>)
    ensures |ids| == |photos|
  {
    if photos == [] then [] else IdsOf(photos[..|photos| - 1]) + [IdOf(photos[|photos| - 1])]
  }

  lemma {:induction false} IdsOfAt(photos: seq<Json>, k: nat)
    requires k < |photos|
    ensures IdsOf(photos)[k] == IdOf(photos[k])
  {
    if k < |photos| - 1 {
      var init := photos[..|photos| - 1];
      IdsOfAt(init, k);
      assert init[k] == photos[k];
    }
  }

  /** The first `n` photos are dicts. */
  predicate Dicts(photos: seq<Json>, n: nat) {
    forall k :: 0 <= k < n && k < |photos| ==> photos[k].Obj?
  }

  lemma DictsStep(photos: seq<Json>, i: nat)
    requires i < |photos| && Dicts(photos, i) && photos[i].Obj?
    ensures Dicts(photos, i + 1)
  {
  }

  /**
   * A photo is settled when a run would not download it: its identifier is
   * recorded, its file exists, or the folder is gone so that creating the
   * file fails.
   */
  ghost predicate Settled(downloaded: set<Json>, files: map<Path, seq<byte>>, dirs: set<Path>, dir: Path, id: string) {
    Str(id) in downloaded || Target(dir, id) in files || Target(dir, id) in dirs || !(dir == [] || dir in dirs)
  }

  /** Every photo among the first `n` that is a dict is settled. */
  ghost predicate AllSettled(downloaded: set<Json>, files: map<Path, seq<byte>>, dirs: set<Path>, dir: Path, ids: seq<string>, n: nat) {
    forall k :: 0 <= k < n && k < |ids| ==> Settled(downloaded, files, dirs, dir, ids[k])
  }

  /** The photos settled before one more step stay settled, and the photo of that step is settled too. */
  lemma AllSettledStep(d0: set<Json>, d1: set<Json>, f0: map<Path, seq<byte>>, f1: map<Path, seq<byte>>,
                       dirs: set<Path>, dir: Path, ids: seq<string>, i: nat)
    requires d0 <= d1 && f0.Keys <= f1.Keys && i < |ids|
    requires AllSettled(d0, f0, dirs, dir, ids, i)
    requires Settled(d1, f1, dirs, dir, ids[i])
    ensures AllSettled(d1, f1, dirs, dir, ids, i + 1)
  {
    forall k | 0 <= k < i + 1 && k < |ids|
      ensures Settled(d1, f1, dirs, dir, ids[k])
    {
      if k < i {
        SettledStays(d0, d1, f0, f1, dirs, dir, ids[k]);
      }
    }
  }

  /** Recording more identifiers and adding files keeps a photo settled. */
  lemma SettledStays(d0: set<Json>, d1: set<Json>, f0: map<Path, seq<byte>>, f1: map<Path, seq<byte>>,
                     dirs: set<Path>, dir: Path, id: string)
    requires d0 <= d1 && f0.Keys <= f1.Keys
    ensures Settled(d0, f0, dirs, dir, id) ==> Settled(d1, f1, dirs, dir, id)
  {
  }

  lemma SubsetSize<T>(a: set<T>, b: set<T>)
    requires a <= b
    ensures |a| <= |b|
  {
    assert b == (b - a) + a;
  }

  lemma KeepsTrans(a: map<Path, seq<byte>>, b: map<Path, seq<byte>>, c: map<Path, seq<byte>>)
    requires Functions.Keeps(a, b) && Functions.Keeps(b, c)
    ensures Functions.Keeps(a, c)
  {
  }

  class ExamplePhotoDownloader {
    const outputDir: Path
    const lockFile: Path
    const manager: ConsistencyManager

    ghost predicate Valid()
      reads this, manager
    {
      manager.Valid()
    }

    constructor (outputDir: Path, lockFile: Path, manager: ConsistencyManager)
      ensures this.outputDir == outputDir && this.lockFile == lockFile && this.manager == manager
    {
      this.outputDir := outputDir;
      this.lockFile := lockFile;
      this.manager := manager;
    }

    /**
     * `ExamplePhotoDownloader(output_dir, lock_file)`: the output folder is
     * made with its parents (raising when a file stands in the way), then
     * the manager opens the lock file, `output_dir/.downloads_lock.json`
     * unless another is given. `None` when either step raises.
     */
    static method Open(fs: FileSystem, outputDir: Path, lockFile: Option<Path>, lock: LockFile)
        returns (r: Option<ExamplePhotoDownloader>)
      modifies fs
      ensures r.Some? <==> old(fs.NoFileOn(outputDir)) && Load(lock).LoadedSet?
      ensures r.Some? ==> (fresh(r.value) && fresh(r.value.manager) && r.value.Valid()
        && r.value.outputDir == outputDir && fs.IsDir(outputDir)
        && r.value.lockFile == (if lockFile.None? then outputDir + [LockName] else lockFile.value)
        && r.value.manager.downloaded == Load(lock).ids)
      ensures fs.files == old(fs.files)
      ensures old(fs.NoFileOn(outputDir)) ==> fs.dirs == old(fs.dirs) + Ancestors(outputDir)
      ensures !old(fs.NoFileOn(outputDir)) ==> fs.dirs == old(fs.dirs)
    {
      var made := fs.MakeDirs(outputDir);
      if made.Err? {
        return None;
      }
      var path := if lockFile.None? then outputDir + [LockName] else lockFile.value;
      var manager := ConsistencyManager.Open(lock);
      if manager.None? {
        return None;
      }
      var d := new ExamplePhotoDownloader(outputDir, path, manager.value);
      return Some(d);
    }

    /**
     * `_should_download_photo`: a photo whose identifier is recorded is
     * skipped; one whose file exists is recorded and skipped; any other is
     * to be downloaded. `None` when the photo is not a dict.
     */
    method ShouldDownload(fs: FileSystem, photo: Json, stamp: string) returns (r: Option<bool>)
      requires Valid()
      modifies manager
      ensures Valid()
      ensures r.None? <==> !photo.Obj?
      ensures r.None? ==> manager.downloaded == old(manager.downloaded)
      ensures r.Some? ==> var id := PhotoId(photo).value;
        && (r.value <==> Str(id) !in old(manager.downloaded) && !fs.Exists(Target(outputDir, id)))
        && manager.downloaded == (if r.value then old(manager.downloaded) else old(manager.downloaded) + {Str(id)})
    {
      var id := PhotoId(photo);
      if id.None? {
        return None;
      }
      var known := manager.IsAlreadyDownloaded(id.value);
      if known {
        return Some(false);
      }
      if fs.Exists(Target(outputDir, id.value)) {
        manager.MarkAsDownloaded(id.value, stamp);
        return Some(false);
      }
      return Some(true);
    }

    /**
     * `_download_single_photo`: `touch` on the photo's file. An existing
     * file or folder is left as it is; otherwise an empty file is created,
     * which fails (False) when the output folder is missing.
     */
    method DownloadSingle(fs: FileSystem, photo: Json) returns (r: Option<bool>)
      modifies fs
      ensures r.None? <==> !photo.Obj?
      ensures r.Some? ==> var t := Target(outputDir, PhotoId(photo).value);
        && (r.value <==> old(fs.Exists(t)) || fs.IsDir(outputDir))
        && fs.files == (if r.value && !old(fs.Exists(t)) then old(fs.files)[t := []] else old(fs.files))
      ensures r.None? ==> fs.files == old(fs.files)
      ensures fs.dirs == old(fs.dirs)
    {
      var id := PhotoId(photo);
      if id.None? {
        return None;
      }
      var t := Target(outputDir, id.value);
      if fs.Exists(t) {
        return Some(true);
      }
      var made := fs.WriteFile(t, []);
      return Some(made.Ok?);
    }

    /**
     * The body of the loop of `download_photos` for one photo: skipped when
     * it need not be downloaded, otherwise its file is created and, when
     * that succeeds, its identifier recorded. True when it was downloaded.
     * `None` when the photo is not a dict.
     */
    method Step(fs: FileSystem, photo: Json, stamp: string) returns (r: Option<bool>)
      requires Valid()
      modifies fs, manager
      ensures Valid()
      ensures r.None? <==> !photo.Obj?
      ensures r.None? ==> manager.downloaded == old(manager.downloaded) && fs.files == old(fs.files)
      ensures fs.dirs == old(fs.dirs)
      ensures old(manager.downloaded) <= manager.downloaded && |old(manager.downloaded)| <= |manager.downloaded|
      ensures r == Some(true) ==> |manager.downloaded| == |old(manager.downloaded)| + 1
      ensures Functions.Keeps(old(fs.files), fs.files)
      ensures r.Some? ==> var id, t := PhotoId(photo).value, Target(outputDir, PhotoId(photo).value);
        && (r.value <==> !old(Settled(manager.downloaded, fs.files, fs.dirs, outputDir, id)))
        && manager.downloaded == old(manager.downloaded) + (if r.value || Str(id) in old(manager.downloaded)
             || old(fs.Exists(t)) then {Str(id)} else {})
        && fs.files == (if r.value then old(fs.files)[t := []] else old(fs.files))
        && (r.value ==> t !in old(fs.files))
    {
      var should := ShouldDownload(fs, photo, stamp);
      SubsetSize(old(manager.downloaded), manager.downloaded);
      if should.None? {
        return None;
      }
      if !should.value {
        return Some(false);
      }
      var success := DownloadSingle(fs, photo);
      if success == Some(true) {
        manager.MarkAsDownloaded(PhotoId(photo).value, stamp);
        SubsetSize(old(manager.downloaded), manager.downloaded);
        return Some(true);
      }
      return Some(false);
    }

    /**
     * `download_photos(photos)`: every photo is considered in turn; a
     * failed download does not stop the loop. The result is the number of
     * photos downloaded, which is the number of files new in the folder. A
     * photo that is not a dict raises out of the method, as the handler that
     * catches the first error raises again while naming the photo.
     *
     * Afterwards every photo is recorded unless the output folder is gone,
     * so that a second run downloads nothing; each download added one
     * identifier to the record and one empty file to the folder.
     */
    method DownloadPhotos(fs: FileSystem, photos: seq<Json>, stamp: string) returns (r: Option<nat>)
      requires Valid()
      modifies fs, manager
      ensures Valid()
      ensures r.Some? <==> Dicts(photos, |photos|)
      ensures old(manager.downloaded) <= manager.downloaded
      ensures fs.dirs == old(fs.dirs)
      ensures forall t :: t in old(fs.files) ==> t in fs.files && fs.files[t] == old(fs.files)[t]
      ensures forall t :: t in fs.files && t !in old(fs.files) ==> fs.files[t] == [] && Made(photos, IdsOf(photos), t)
      ensures r.Some? ==> r.value <= |photos| && |old(manager.downloaded)| + r.value <= |manager.downloaded|
      ensures r.Some? ==> AllSettled(manager.downloaded, fs.files, fs.dirs, outputDir, IdsOf(photos), |photos|)
      ensures r.Some? && old(AllSettled(manager.downloaded, fs.files, fs.dirs, outputDir, IdsOf(photos), |photos|)) ==> r.value == 0
      ensures r.Some? ==> r.value == |fs.files.Keys - old(fs.files).Keys|
    {
      ghost var d, files := manager.downloaded, fs.files;
      var count := 0;
      ghost var news: set<Path> := {};
      for i := 0 to |photos|
        invariant Valid()
        invariant news == fs.files.Keys - files.Keys && count == |news|
        invariant Dicts(photos, i)
        invariant old(manager.downloaded) <= manager.downloaded
        invariant count <= i && |old(manager.downloaded)| + count <= |manager.downloaded|
        invariant fs.dirs == old(fs.dirs)
        invariant Functions.Keeps(files, fs.files)
        invariant forall t :: t in fs.files && t !in files ==> fs.files[t] == [] && Made(photos, IdsOf(photos), t)
        invariant AllSettled(manager.downloaded, fs.files, fs.dirs, outputDir, IdsOf(photos), i)
        invariant AllSettled(d, files, fs.dirs, outputDir, IdsOf(photos), |photos|) ==> count == 0
      {
        ghost var d0, f0 := manager.downloaded, fs.files;
        var downloaded := Step(fs, photos[i], stamp);
        if downloaded.None? {
          return None;
        }
        DictsStep(photos, i);
        KeepsTrans(files, f0, fs.files);
        AdvanceFiles(photos, i, files, f0, fs.files, downloaded.value);
        ghost var t := Target(outputDir, PhotoId(photos[i]).value);
        Files.NewFileNames(files, f0, fs.files, t, [], downloaded.value);
        AdvanceSettled(photos, i, d, files, d0, f0, manager.downloaded, fs.files, fs.dirs, downloaded.value);
        if downloaded.value {
          news, count := news + {t}, count + 1;
        }
      }
      return Some(count);
    }

    /**
     * The files of one photo of `download_photos`, from `f0` before it to
     * `f1` after it: the files new since the start stay empty files of the
     * photos.
     */
    lemma AdvanceFiles(photos: seq<Json>, i: nat, files: map<Path, seq<byte>>,
                       f0: map<Path, seq<byte>>, f1: map<Path, seq<byte>>, added: bool)
      requires i < |photos| && photos[i].Obj?
      requires forall u :: u in f0 && u !in files ==> f0[u] == [] && Made(photos, IdsOf(photos), u)
      requires f1 == (if added then f0[Target(outputDir, PhotoId(photos[i]).value) := []] else f0)
      ensures forall u :: u in f1 && u !in files ==> f1[u] == [] && Made(photos, IdsOf(photos), u)
    {
      if added {
        IdsOfAt(photos, i);
        assert Made(photos, IdsOf(photos), Target(outputDir, PhotoId(photos[i]).value));
      }
    }

    /**
     * The record of one photo of `download_photos`: the photos so far stay
     * settled and this one is settled too; it was downloaded only if it was
     * not settled, which never happens when every photo was settled at the
     * start.
     */
    lemma AdvanceSettled(photos: seq<Json>, i: nat, d: set<Json>, files: map<Path, seq<byte>>,
                         d0: set<Json>, f0: map<Path, seq<byte>>, d1: set<Json>, f1: map<Path, seq<byte>>,
                         dirs: set<Path>, added: bool)
      requires i < |photos| && photos[i].Obj?
      requires d <= d0 <= d1 && files.Keys <= f0.Keys <= f1.Keys
      requires AllSettled(d0, f0, dirs, outputDir, IdsOf(photos), i)
      requires added <==> !Settled(d0, f0, dirs, outputDir, PhotoId(photos[i]).value)
      requires added ==> Target(outputDir, PhotoId(photos[i]).value) in f1
      ensures AllSettled(d1, f1, dirs, outputDir, IdsOf(photos), i + 1)
      ensures AllSettled(d, files, dirs, outputDir, IdsOf(photos), |photos|) ==> !added
    {
      var id := PhotoId(photos[i]).value;
      IdsOfAt(photos, i);
      SettledStays(d0, d1, f0, f1, dirs, outputDir, id);
      AllSettledStep(d0, d1, f0, f1, dirs, outputDir, IdsOf(photos), i);
      if AllSettled(d, files, dirs, outputDir, IdsOf(photos), |photos|) {
        assert Settled(d, files, dirs, outputDir, IdsOf(photos)[i]);
        SettledStays(d, d0, files, f0, dirs, outputDir, id);
      }
    }

    /** `t` is the file of one of `photos`. */
    ghost predicate Made(photos: seq<Json>, ids: seq<string>, t: Path)
      reads this
    {
      exists k :: 0 <= k < |photos| && k < |ids| && photos[k].Obj? && t == Target(outputDir, ids[k])
    }

    /**
     * The run of the example, twice over the same photos: whatever the
     * first run downloaded or failed to, the second downloads nothing.
     */
    method RunTwice(fs: FileSystem, photos: seq<Json>, stamp: string) returns (first: Option<nat>, second: Option<nat>)
      requires Valid()
      modifies fs, manager
      ensures Valid()
      ensures first.Some? <==> second.Some?
      ensures second.Some? ==> second.value == 0
    {
      first := DownloadPhotos(fs, photos, stamp);
      second := DownloadPhotos(fs, photos, stamp);
    }

    /** `get_download_stats`: the number of recorded identifiers, the lock file and the output folder. */
    function Stats(): (r: (nat, Path, Path))
      reads this, manager
      ensures r.0 == |manager.downloaded| && r.1 == lockFile && r.2 == outputDir
    {
      (|manager.downloaded|, lockFile, outputDir)
    }
  }
}
