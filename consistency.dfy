/**
 * `ConsistencyManager`: the set of identifiers (`"{owner_id}_{photo_id}"`)
 * already downloaded, persisted in a JSON lock file that every change to
 * the set rewrites.
 *
 * The lock file is the ghost `disk`: the JSON document it holds, or why it
 * holds none. The manager keeps the invariant that loading `disk` gives
 * exactly the set in memory, so a fresh manager on the same file sees the
 * same set.
 */
module Consistency {
  import opened Wrappers
  import opened JsonValues

  /** What the lock file holds. */
  datatype LockFile =
    | Missing           // `exists()` is false
    | Unreadable        // opening or reading raises OSError (a directory, no permission)
    | Corrupt           // the text is not JSON (JSONDecodeError)
    | Holds(doc: Json)

  /** A value Python can put in a set: JSON arrays and objects are lists and dicts, which are unhashable. */
  predicate Hashable(v: Json) {
    !v.Arr? && !v.Obj?
  }

  /** The elements of a JSON list, as a set. */
  function ElementSet(items: seq<Json>): (s: set<Json>)
    ensures forall v :: v in s <==> v in items
  {
    set v | v in items
  }

  /** Python `set(x)` for a decoded value; `None` when it raises TypeError. */
  function PySet(v: Json): (r: Option<set<Json>>)
    ensures v.Arr? && (forall k :: 0 <= k < |v.items| ==> Hashable(v.items[k])) ==> r == Some(ElementSet(v.items))
    ensures v.Arr? && (exists k :: 0 <= k < |v.items| && !Hashable(v.items[k])) ==> r == None
    ensures v.Null? || v.Bool? || v.Int? ==> r == None
  {
    match v
    case Arr(items) => if forall k :: 0 <= k < |items| ==> Hashable(items[k]) then Some(ElementSet(items)) else None
    case Str(s) => Some(set k | 0 <= k < |s| :: Str([s[k]]))
    case Obj(fields) => Some(set k | 0 <= k < |fields| :: Str(fields[k].0))
    case _ => None
  }

  datatype Loaded =
    | LoadedSet(ids: set<Json>)
    | LoadRaised    // an AttributeError or TypeError the loader does not catch

  /**
   * `_load_downloaded_files`: a missing, unreadable or corrupt file gives the
   * empty set; a JSON object gives `set(data.get("downloaded_files", []))`.
   */
  function Load(file: LockFile): (r: Loaded)
    ensures file.Missing? || file.Unreadable? || file.Corrupt? ==> r == LoadedSet({})
    ensures file.Holds? && !file.doc.Obj? ==> r == LoadRaised
  {
    match file
    case Holds(doc) =>
      if !doc.Obj? then LoadRaised
      else
        var ids := PySet(Lookup(doc.fields, "downloaded_files").GetOr(Arr([])));
        if ids.Some? then LoadedSet(ids.value) else LoadRaised
    case _ => LoadedSet({})
  }

  /** Some listing of the set, in the arbitrary order `list(set)` gives. */
  ghost function ListOf(s: set<Json>): (l: seq<Json>)
    ensures |l| == |s|
    ensures forall v :: v in l <==> v in s
  {
    if s == {} then []
    else
      var v :| v in s;
      [v] + ListOf(s - {v})
  }

  /** The document `_save_downloaded_files` writes: the set as a list, the time `stamp`, and the count. */
  ghost function Document(ids: set<Json>, stamp: string): Json {
    Obj([("downloaded_files", Arr(ListOf(ids))), ("last_updated", Str(stamp)), ("total_files", Int(|ids|))])
  }

  /** Saving then loading gives back exactly the saved set, and the count written is its size. */
  lemma SaveLoadRoundTrip(ids: set<Json>, stamp: string)
    requires forall v :: v in ids ==> Hashable(v)
    ensures Load(Holds(Document(ids, stamp))) == LoadedSet(ids)
    ensures Lookup(Document(ids, stamp).fields, "total_files") == Some(Int(|ids|))
  {
    var l := ListOf(ids);
    assert forall k :: 0 <= k < |l| ==> l[k] in ids;
    assert ElementSet(l) == ids;
    assert PySet(Arr(l)) == Some(ids);
    var fields := Document(ids, stamp).fields;
    LookupAt(fields, 0);
    assert Lookup(fields, "downloaded_files").GetOr(Arr([])) == Arr(l);
    LookupAt(fields, 2);
  }

  class ConsistencyManager {
    var downloaded: set<Json>
    ghost var disk: LockFile

    /** The set in memory is the one the lock file loads as, and holds only hashable values. */
    ghost predicate Valid()
      reads this
    {
      Load(disk) == LoadedSet(downloaded) && forall v :: v in downloaded ==> Hashable(v)
    }

    /** `ConsistencyManager(lock_file)` on a file that loads; the other case is `Open`. */
    constructor (file: LockFile)
      requires Load(file).LoadedSet?
      ensures Valid() && disk == file && downloaded == Load(file).ids
    {
      downloaded := Load(file).ids;
      disk := file;
      new;
      assert Valid() by {
        if file.Holds? {
          var v := Lookup(file.doc.fields, "downloaded_files").GetOr(Arr([]));
          assert v.Arr? ==> forall x :: x in downloaded ==> Hashable(x);
        }
      }
    }

    /** Creating a manager: `None` exactly when loading raises. */
    static method Open(file: LockFile) returns (r: Option<ConsistencyManager>)
      ensures r.Some? <==> Load(file).LoadedSet?
      ensures r.Some? ==> fresh(r.value) && r.value.Valid() && r.value.downloaded == Load(file).ids
    {
      if Load(file).LoadRaised? {
        return None;
      }
      var m := new ConsistencyManager(file);
      return Some(m);
    }

    /** `_save_downloaded_files` at time `stamp`: the file now holds the current set. */
    method Save(stamp: string)
      requires forall v :: v in downloaded ==> Hashable(v)
      modifies this
      ensures Valid() && downloaded == old(downloaded) && disk == Holds(Document(downloaded, stamp))
    {
      disk := Holds(Document(downloaded, stamp));
      SaveLoadRoundTrip(downloaded, stamp);
    }

    /** `is_already_downloaded(photo_id)`: membership in the set in memory. */
    method IsAlreadyDownloaded(photoId: string) returns (b: bool)
      ensures b <==> Str(photoId) in downloaded
    {
      b := Str(photoId) in downloaded;
    }

    /**
     * `mark_as_downloaded(photo_id)`: the identifier is in the set afterwards;
     * only when it was absent does the set grow, by one, and is the file rewritten.
     */
    method MarkAsDownloaded(photoId: string, stamp: string)
      requires Valid()
      modifies this
      ensures Valid() && downloaded == old(downloaded) + {Str(photoId)}
      ensures Str(photoId) !in old(downloaded) ==> |downloaded| == |old(downloaded)| + 1 && disk == Holds(Document(downloaded, stamp))
      ensures Str(photoId) in old(downloaded) ==> disk == old(disk)
    {
      if Str(photoId) !in downloaded {
        downloaded := downloaded + {Str(photoId)};
        Save(stamp);
      }
    }

    /** `get_downloaded_count()`. */
    method GetDownloadedCount() returns (n: nat)
      ensures n == |downloaded|
    {
      n := |downloaded|;
    }

    /** `get_downloaded_files()`: a copy; being a value, later changes to the manager do not reach it. */
    method GetDownloadedFiles() returns (s: set<Json>)
      ensures s == downloaded
    {
      s := downloaded;
    }

    /** `clear_downloaded_files()`: the set is empty and the empty set is written. */
    method ClearDownloadedFiles(stamp: string)
      requires Valid()
      modifies this
      ensures Valid() && downloaded == {} && disk == Holds(Document({}, stamp))
    {
      downloaded := {};
      Save(stamp);
    }

    /**
     * `remove_downloaded_file(photo_id)`: true exactly when the identifier was
     * present; afterwards it is absent, and the file is rewritten only when
     * something was removed.
     */
    method RemoveDownloadedFile(photoId: string, stamp: string) returns (removed: bool)
      requires Valid()
      modifies this
      ensures Valid()
      ensures removed <==> Str(photoId) in old(downloaded)
      ensures downloaded == old(downloaded) - {Str(photoId)}
      ensures removed ==> disk == Holds(Document(downloaded, stamp))
      ensures !removed ==> disk == old(disk)
    {
      if Str(photoId) in downloaded {
        downloaded := downloaded - {Str(photoId)};
        Save(stamp);
        return true;
      }
      return false;
    }

    /** `__exit__`: the set is saved again only when it is non-empty. */
    method Exit(stamp: string)
      requires Valid()
      modifies this
      ensures Valid() && downloaded == old(downloaded)
      ensures downloaded != {} ==> disk == Holds(Document(downloaded, stamp))
      ensures downloaded == {} ==> disk == old(disk)
    {
      if downloaded != {} {
        Save(stamp);
      }
    }
  }
}
