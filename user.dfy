/**
 * The user downloaders: `UserPhotoDownloader` (one profile) and
 * `UsersPhotoDownloader` (several, one after the other).
 *
 * `get_photos` reads four photo sources of the profile (the "saved",
 * "profile" and "wall" albums, then `photos.getAll`), each paged by 100
 * until a short page, and turns every photo into a record of its id, owner
 * id, last-size URL, like count and date; any photo that lacks one of them
 * raises, which ends the run. `main` skips a deleted profile, stands in the
 * avatar for a closed one, sorts the photos newest first and hands them to
 * `download_photos`.
 *
 * Each source is an abstract page function; the API responses `main` reads
 * are passed in as values.
 */
module User {
  import opened Wrappers
  import opened JsonValues
  import opened Paging
  import VkUtils

  const PageSize: nat := 100

  // ---------------------------------------------------------------------
  // The record of one photo
  // ---------------------------------------------------------------------

  /**
   * The record `get_photos` appends for a photo, the dict
   * `{"id", "owner_id", "url", "likes", "date"}` built one field at a time;
   * each field reads back as given.
   */
  function PhotoRecord(id: Json, owner: Json, url: Json, likes: Json, date: Json): (r: Json)
    ensures r.Obj? && Field(r, "id") == id && Field(r, "owner_id") == owner && Field(r, "url") == url
    ensures Field(r, "likes") == likes && Field(r, "date") == date
  {
    var dated := [("date", date)];
    var liked := [("likes", likes)] + dated;
    var located := [("url", url)] + liked;
    var owned := [("owner_id", owner)] + located;
    LookupFront("date", date, [], "date");
    LookupFront("likes", likes, dated, "date");
    LookupFront("likes", likes, dated, "likes");
    LookupFront("url", url, liked, "date");
    LookupFront("url", url, liked, "likes");
    LookupFront("url", url, liked, "url");
    LookupFront("owner_id", owner, located, "date");
    LookupFront("owner_id", owner, located, "likes");
    LookupFront("owner_id", owner, located, "url");
    LookupFront("owner_id", owner, located, "owner_id");
    LookupFront("id", id, owned, "date");
    LookupFront("id", id, owned, "likes");
    LookupFront("id", id, owned, "url");
    LookupFront("id", id, owned, "owner_id");
    LookupFront("id", id, owned, "id");
    Obj([("id", id)] + owned)
  }

  /** `photo["sizes"][-1]`, the largest size. */
  function BestSize(photo: Json): Option<Json> {
    match Item(photo, "sizes")
    case None => None
    case Some(sizes) => Last(sizes)
  }

  /** A photo every key of the record can be read from. */
  predicate Readable(photo: Json) {
    && Item(photo, "id").Some? && Item(photo, "owner_id").Some?
    && BestSize(photo).Some? && Item(BestSize(photo).value, "url").Some?
    && Item(photo, "likes").Some? && Item(Field(photo, "likes"), "count").Some?
    && Item(photo, "date").Some?
  }

  /**
   * The record of one photo: `photo["id"]`, `photo["owner_id"]`,
   * `photo["sizes"][-1]["url"]`, `photo["likes"]["count"]` and
   * `photo["date"]`; `None` when one of them raises.
   */
  function PhotoOf(photo: Json): (r: Option<Json>)
    ensures r.Some? <==> Readable(photo)
    ensures r.Some? ==> r.value == PhotoRecord(Field(photo, "id"), Field(photo, "owner_id"),
      Field(BestSize(photo).value, "url"), Field(Field(photo, "likes"), "count"), Field(photo, "date"))
  {
    match Item(photo, "id")
    case None => None
    case Some(id) =>
      match Item(photo, "owner_id")
      case None => None
      case Some(owner) =>
        match BestSize(photo)
        case None => None
        case Some(best) =>
          match Item(best, "url")
          case None => None
          case Some(url) =>
            match Item(photo, "likes")
            case None => None
            case Some(likes) =>
              match Item(likes, "count")
              case None => None
              case Some(count) =>
                match Item(photo, "date")
                case None => None
                case Some(date) => Some(PhotoRecord(id, owner, url, count, date))
  }

  // ---------------------------------------------------------------------
  // `get_photos`
  // ---------------------------------------------------------------------

  /** The records of one source: every photo up to its first short page, or `None` when one raises. */
  function SourcePhotos(api: Api): Option<seq<Json>> {
    MapAll(Collected(api, 0, PageSize), PhotoOf)
  }

  /** The four sources `get_photos` reads, in its order. */
  datatype Sources = Sources(saved: Api, profile: Api, wall: Api, all: Api)

  /** `get_photos`: the saved, profile, wall and getAll records, in that order. */
  function AllPhotos(s: Sources): Option<seq<Json>> {
    Cat(Cat(Cat(SourcePhotos(s.saved), SourcePhotos(s.profile)), SourcePhotos(s.wall)), SourcePhotos(s.all))
  }

  /**
   * `get_photos` returns one record per photo of the four sources, in
   * order, and raises exactly when some photo of some source cannot be read.
   */
  lemma AllPhotosEach(s: Sources)
    ensures var photos := Collected(s.saved, 0, PageSize) + Collected(s.profile, 0, PageSize)
                        + Collected(s.wall, 0, PageSize) + Collected(s.all, 0, PageSize);
      && AllPhotos(s) == MapAll(photos, PhotoOf)
      && (AllPhotos(s).Some? <==> forall k :: 0 <= k < |photos| ==> Readable(photos[k]))
      && (AllPhotos(s).Some? ==> (|AllPhotos(s).value| == |photos| &&
            forall k :: 0 <= k < |photos| ==> Some(AllPhotos(s).value[k]) == PhotoOf(photos[k])))
  {
    var a, b, c, d := Collected(s.saved, 0, PageSize), Collected(s.profile, 0, PageSize),
                      Collected(s.wall, 0, PageSize), Collected(s.all, 0, PageSize);
    MapAllAppend(a, b, PhotoOf);
    MapAllAppend(a + b, c, PhotoOf);
    MapAllAppend(a + b + c, d, PhotoOf);
    MapAllEach(a + b + c + d, PhotoOf);
  }

  /** One source loop of `get_photos`: pages from offset 0 by 100 until a short page, each page mapped by `f`. */
  method FetchSource<B>(api: Api, f: Json -> Option<B>) returns (r: Option<seq<B>>)
    ensures r == MapAll(Collected(api, 0, PageSize), f)
  {
    var photos: seq<B> := [];
    var offset := 0;
    var more := true;
    r := Some([]);
    var all := MapAll(Collected(api, 0, PageSize), f);
    if all.Some? {
      assert [] + all.value == all.value;
    }
    while more
      invariant more ==> MapAll(Collected(api, 0, PageSize), f) == Cat(Some(photos), MapAll(Collected(api, offset, PageSize), f))
      invariant !more ==> r == MapAll(Collected(api, 0, PageSize), f)
      decreases more, Remaining(api, offset)
    {
      var page := Page(api, offset);
      var records := MapEach(page, f);
      if |page| >= PageSize {
        MapAllAppend(page, Collected(api, offset + PageSize, PageSize), f);
      }
      if records.None? {
        more := false;
        r := None;
      } else if |page| < PageSize {
        more := false;
        r := Some(photos + records.value);
      } else {
        var rest := MapAll(Collected(api, offset + PageSize, PageSize), f);
        if rest.Some? {
          assert photos + (records.value + rest.value) == (photos + records.value) + rest.value;
        }
        photos := photos + records.value;
        RemainingDecreases(api, offset, offset + PageSize);
        offset := offset + PageSize;
      }
    }
  }

  /** `get_photos`: the four source loops in order; the first that raises ends it. */
  method GetPhotos(s: Sources) returns (r: Option<seq<Json>>)
    ensures r == AllPhotos(s)
  {
    var saved := FetchSource(s.saved, PhotoOf);
    var profile := FetchSource(s.profile, PhotoOf);
    var wall := FetchSource(s.wall, PhotoOf);
    var all := FetchSource(s.all, PhotoOf);
    r := Cat(Cat(Cat(saved, profile), wall), all);
  }

  // ---------------------------------------------------------------------
  // Sorting by date, newest first
  // ---------------------------------------------------------------------

  /** `k["date"]` as a sort key: `None` when the record has no date (KeyError) or the date is not an integer. */
  function DateOf(record: Json): Option<int> {
    match Item(record, "date")
    case Some(Int(d)) => Some(d)
    case _ => None
  }

  /** Every record has an integer date. */
  predicate Dated(records: seq<Json>) {
    forall k :: 0 <= k < |records| ==> DateOf(records[k]).Some?
  }

  /** The sort key of a dated record. */
  function DateKey(record: Json): int {
    DateOf(record).GetOr(0)
  }

  /** Largest key first. */
  predicate Descending<T>(xs: seq<T>, key: T -> int) {
    forall i, j :: 0 <= i < j < |xs| ==> key(xs[i]) >= key(xs[j])
  }

  /** `x` placed after every element whose key is at least its own: the stable insertion `sort(reverse=True)` performs. */
  function Insert<T>(x: T, sorted: seq<T>, key: T -> int): (r: seq<T>)
    ensures multiset(r) == multiset(sorted) + multiset{x}
    ensures r[0] == x || (sorted != [] && r[0] == sorted[0])
  {
    if sorted == [] || key(sorted[0]) < key(x) then
      [x] + sorted
    else
      assert sorted == [sorted[0]] + sorted[1..];
      [sorted[0]] + Insert(x, sorted[1..], key)
  }

  /** Inserting into a descending list keeps it descending. */
  lemma {:induction false} InsertDescending<T>(x: T, sorted: seq<T>, key: T -> int)
    requires Descending(sorted, key)
    ensures Descending(Insert(x, sorted, key), key)
    decreases |sorted|
  {
    if sorted != [] && key(sorted[0]) >= key(x) {
      var rest := Insert(x, sorted[1..], key);
      InsertDescending(x, sorted[1..], key);
      var r := Insert(x, sorted, key);
      assert r == [sorted[0]] + rest;
      assert rest[0] == x || rest[0] == sorted[1];
      forall i, j | 0 <= i < j < |r|
        ensures key(r[i]) >= key(r[j])
      {
        if i == 0 {
          assert r[j] == rest[j - 1];
        } else {
          assert r[i] == rest[i - 1] && r[j] == rest[j - 1];
        }
      }
    }
  }

  /** Insertion sort, largest key first, keeping elements of equal keys in their order. */
  function SortDesc<T>(xs: seq<T>, key: T -> int): (r: seq<T>)
    ensures Descending(r, key) && multiset(r) == multiset(xs)
  {
    if xs == [] then []
    else
      var last := |xs| - 1;
      assert xs == xs[..last] + [xs[last]];
      var sorted := SortDesc(xs[..last], key);
      InsertDescending(xs[last], sorted, key);
      Insert(xs[last], sorted, key)
  }

  /**
   * `photos.sort(key=lambda k: k["date"], reverse=True)`: the records
   * newest first; `None` when a record has no integer date. Python computes
   * every key before comparing, so even a single record without a date
   * raises.
   */
  function SortByDate(records: seq<Json>): (r: Option<seq<Json>>)
    ensures r.Some? <==> Dated(records)
    ensures r.Some? ==> Descending(r.value, DateKey) && multiset(r.value) == multiset(records)
  {
    if Dated(records) then Some(SortDesc(records, DateKey)) else None
  }

  /** A single dated record sorts to itself. */
  lemma SortSingle(p: Json)
    requires DateOf(p).Some?
    ensures SortByDate([p]) == Some([p])
  {
    assert Dated([p]);
    assert [p][..0] == [];
    assert SortDesc([p][..0], DateKey) == [];
    assert SortDesc([p], DateKey) == Insert(p, [], DateKey) == [p];
  }

  // ---------------------------------------------------------------------
  // `UserPhotoDownloader.main`
  // ---------------------------------------------------------------------

  /** What `main` does for one user. */
  datatype UserRun =
    | Raised                                      // an exception ends the run
    | Deactivated(folder: string)                 // a deleted profile: the folder is created, nothing is fetched
    | Download(folder: string, photos: seq<Json>) // `download_photos(folder, photos)`

  /** The profile as `main` finds it once its folder exists. */
  datatype Profile = Gone | Closed | Open

  /**
   * The API as `main` sees it for one user: the `users.get` response with
   * the profile fields, the `users.get` response `get_username` reads, and
   * the four photo sources.
   */
  datatype UserWorld = UserWorld(info: Json, names: Json, sources: Sources)

  /** `user_info["is_closed"] and not user_info["can_access_closed"]`, short-circuiting. */
  function IsClosed(info: Json): (r: Option<bool>)
    ensures r == Some(false) <== Item(info, "is_closed").Some? && !Truthy(Field(info, "is_closed"))
  {
    match Item(info, "is_closed")
    case None => None
    case Some(c) =>
      if !Truthy(c) then Some(false)
      else
        match Item(info, "can_access_closed")
        case None => None
        case Some(a) => Some(!Truthy(a))
  }

  /**
   * The part of `main` before the photos: the first user of the response,
   * the name fields `decline` reads, the utils check, the folder name, then
   * whether the profile is deleted or closed. `Err(())` when any of it
   * raises.
   */
  function Prelude(w: UserWorld, hasUtils: bool): (r: Result<(string, Json, Profile), ()>)
    ensures r.Ok? ==> hasUtils && Some(r.value.0) == VkUtils.GetUsername(w.names) && Some(r.value.1) == First(w.info)
    ensures r.Ok? ==> (r.value.2 == Gone <==> In("deactivated", r.value.1) == Some(true))
  {
    match First(w.info)
    case None => Err(())
    case Some(info) =>
      if Item(info, "first_name").None? || Item(info, "last_name").None? || Item(info, "sex").None? || !hasUtils then Err(())
      else
        match VkUtils.GetUsername(w.names)
        case None => Err(())
        case Some(folder) =>
          match In("deactivated", info)
          case None => Err(())
          case Some(gone) =>
            if gone then Ok((folder, info, Gone))
            else
              match IsClosed(info)
              case None => Err(())
              case Some(closed) => Ok((folder, info, if closed then Closed else Open))
  }

  /** The sort and the hand-over to `download_photos`; a raise before or in the sort ends the run. */
  function Downloaded(folder: string, photos: Option<seq<Json>>): (r: UserRun)
    ensures r.Download? <==> photos.Some? && Dated(photos.value)
    ensures !r.Download? ==> r == Raised
    ensures r.Download? ==> (r.folder == folder && Descending(r.photos, DateKey)
      && multiset(r.photos) == multiset(photos.value))
  {
    match photos
    case None => Raised
    case Some(ps) =>
      match SortByDate(ps)
      case None => Raised
      case Some(sorted) => Download(folder, sorted)
  }

  /** The record standing in for a closed profile's photos, as written: it has no "date". */
  function StandInAsWritten(userId: string, info: Json): (r: Option<Json>)
    ensures r.Some? <==> Item(info, "photo_max_orig").Some?
    ensures r.Some? ==> r.value.Obj? && Lookup(r.value.fields, "date").None?
  {
    match Item(info, "photo_max_orig")
    case None => None
    case Some(url) =>
      var likes := [("likes", Int(0))];
      var located := [("url", url)] + likes;
      var owned := [("owner_id", Str(userId))] + located;
      LookupFront("likes", Int(0), [], "date");
      LookupFront("url", url, likes, "date");
      LookupFront("owner_id", Str(userId), located, "date");
      LookupFront("id", Str(userId), owned, "date");
      Some(Obj([("id", Str(userId))] + owned))
  }

  /** What `main` does after the prelude, as written; only a closed profile is handled differently from `AfterPrelude`. */
  function AfterPreludeAsWritten(userId: string, folder: string, info: Json, profile: Profile, s: Sources): (r: UserRun)
    ensures profile != Closed ==> r == AfterPrelude(userId, folder, info, profile, s)
  {
    match profile
    case Gone => Deactivated(folder)
    case Closed =>
      Downloaded(folder, match StandInAsWritten(userId, info) case None => None case Some(p) => Some([p]))
    case Open => Downloaded(folder, AllPhotos(s))
  }

  /** `UserPhotoDownloader.main` as written: it differs from `UserMain` only for a closed profile. */
  function UserMainAsWritten(userId: string, w: UserWorld, hasUtils: bool): (r: UserRun)
    ensures Prelude(w, hasUtils).Err? ==> r == Raised
    ensures Prelude(w, hasUtils).Ok? && Prelude(w, hasUtils).value.2 != Closed ==> r == UserMain(userId, w, hasUtils)
    ensures Prelude(w, hasUtils).Ok? && Prelude(w, hasUtils).value.2 == Closed ==> r == Raised
  {
    match Prelude(w, hasUtils)
    case Err(_) => Raised
    case Ok((folder, info, profile)) =>
      ClosedProfileRaises(userId, folder, info, w.sources);
      AfterPreludeAsWritten(userId, folder, info, profile, w.sources)
  }

  /** As written, a closed profile never gets its avatar downloaded: the sort raises KeyError on the dateless record. */
  lemma ClosedProfileRaises(userId: string, folder: string, info: Json, s: Sources)
    ensures AfterPreludeAsWritten(userId, folder, info, Closed, s) == Raised
  {
    match StandInAsWritten(userId, info)
    case None =>
    case Some(p) =>
      assert DateOf([p][0]).None?;
  }

  /** The record standing in for a closed profile's photos, dated so that the sort accepts it. */
  function StandIn(userId: string, info: Json): (r: Option<Json>)
    ensures r.Some? <==> Item(info, "photo_max_orig").Some?
    ensures r.Some? ==> DateOf(r.value) == Some(0) && Field(r.value, "url") == Field(info, "photo_max_orig")
  {
    match Item(info, "photo_max_orig")
    case None => None
    case Some(url) =>
      Some(PhotoRecord(Str(userId), Str(userId), url, Int(0), Int(0)))
  }

  /**
   * What `main` does after the prelude, with the dated stand-in: a deleted
   * profile downloads nothing, a closed one its avatar, an open one every
   * photo of its four sources, newest first.
   */
  function AfterPrelude(userId: string, folder: string, info: Json, profile: Profile, s: Sources): (r: UserRun)
    ensures profile == Gone <==> r == Deactivated(folder)
    ensures profile == Closed && Item(info, "photo_max_orig").Some? ==>
      r.Download? && r.folder == folder && |r.photos| == 1 && Some(r.photos[0]) == StandIn(userId, info)
    ensures profile == Open ==> (r.Download? <==> AllPhotos(s).Some? && Dated(AllPhotos(s).value))
    ensures profile == Open && r.Download? ==> multiset(r.photos) == multiset(AllPhotos(s).value) && Descending(r.photos, DateKey)
  {
    match profile
    case Gone => Deactivated(folder)
    case Closed =>
      (match StandIn(userId, info)
       case None => Downloaded(folder, None)
       case Some(p) => SortSingle(p); Downloaded(folder, Some([p])))
    case Open => Downloaded(folder, AllPhotos(s))
  }

  /** `UserPhotoDownloader.main` with the dated stand-in. */
  function UserMain(userId: string, w: UserWorld, hasUtils: bool): (r: UserRun)
    ensures r.Deactivated? ==> Prelude(w, hasUtils).Ok? && Prelude(w, hasUtils).value.2 == Gone
    ensures r.Download? ==> Prelude(w, hasUtils).Ok? && r.folder == Prelude(w, hasUtils).value.0 && Descending(r.photos, DateKey)
  {
    match Prelude(w, hasUtils)
    case Err(_) => Raised
    case Ok((folder, info, profile)) => AfterPrelude(userId, folder, info, profile, w.sources)
  }

  // ---------------------------------------------------------------------
  // `UsersPhotoDownloader.main`
  // ---------------------------------------------------------------------

  /** The runs of `run` over the ids, in order, up to and including the first that raises. */
  function RunAll(userIds: seq<string>, run: string -> UserRun): (r: seq<UserRun>)
    ensures |r| <= |userIds|
  {
    if userIds == [] then []
    else
      var first := run(userIds[0]);
      if first.Raised? then [first] else [first] + RunAll(userIds[1..], run)
  }

  /**
   * Users are handled one at a time, in order: the k-th run is the k-th
   * user's, only the last run can have raised, and when none raised every
   * user was handled.
   */
  lemma {:induction false} RunAllInOrder(userIds: seq<string>, run: string -> UserRun)
    ensures var r := RunAll(userIds, run);
      && (forall k :: 0 <= k < |r| ==> r[k] == run(userIds[k]))
      && (forall k :: 0 <= k < |r| - 1 ==> !r[k].Raised?)
      && (|r| < |userIds| ==> r != [] && r[|r| - 1].Raised?)
    decreases |userIds|
  {
    if userIds != [] {
      RunAllInOrder(userIds[1..], run);
      var r := RunAll(userIds, run);
      var rest := RunAll(userIds[1..], run);
      if !r[0].Raised? {
        assert r == [r[0]] + rest;
        assert forall k :: 1 <= k < |r| ==> r[k] == rest[k - 1] && userIds[k] == userIds[1..][k - 1];
      }
    }
  }

  /**
   * `UsersPhotoDownloader.main`, with the dated stand-in: each user's `main`
   * in turn, in order, until one raises.
   */
  function UsersMain(userIds: seq<string>, world: string -> UserWorld, hasUtils: bool): (r: seq<UserRun>)
    ensures |r| <= |userIds|
    ensures forall k :: 0 <= k < |r| ==> r[k] == UserMain(userIds[k], world(userIds[k]), hasUtils)
    ensures forall k :: 0 <= k < |r| - 1 ==> !r[k].Raised?
    ensures |r| < |userIds| ==> r != [] && r[|r| - 1].Raised?
  {
    RunAllInOrder(userIds, id => UserMain(id, world(id), hasUtils));
    RunAll(userIds, id => UserMain(id, world(id), hasUtils))
  }

  /** `UsersPhotoDownloader.main` as written. */
  function UsersMainAsWritten(userIds: seq<string>, world: string -> UserWorld, hasUtils: bool): (r: seq<UserRun>)
    ensures |r| <= |userIds|
  {
    RunAll(userIds, id => UserMainAsWritten(id, world(id), hasUtils))
  }

  /**
   * As written, a closed profile aborts the whole loop: no user after it is
   * handled, and the run ends in the raise.
   */
  lemma ClosedUserAbortsUsers(userIds: seq<string>, world: string -> UserWorld, hasUtils: bool, k: nat)
    requires k < |userIds|
    requires Prelude(world(userIds[k]), hasUtils).Ok? && Prelude(world(userIds[k]), hasUtils).value.2 == Closed
    ensures var r := UsersMainAsWritten(userIds, world, hasUtils); r != [] && |r| <= k + 1 && r[|r| - 1] == Raised
  {
    var run := id => UserMainAsWritten(id, world(id), hasUtils);
    assert run(userIds[k]) == Raised;
    RunAllStops(userIds, run, k);
  }

  /** A run that raises on the k-th user ends the loop there. */
  lemma RunAllStops(userIds: seq<string>, run: string -> UserRun, k: nat)
    requires k < |userIds| && run(userIds[k]) == Raised
    ensures var r := RunAll(userIds, run); r != [] && |r| <= k + 1 && r[|r| - 1] == Raised
  {
    RunAllInOrder(userIds, run);
  }

  /** The `for user_id in self.user_ids` loop, each run computed by `run`. */
  method RunUsers(userIds: seq<string>, run: string -> UserRun) returns (runs: seq<UserRun>)
    ensures runs == RunAll(userIds, run)
  {
    runs := [];
    assert userIds[0..] == userIds;
    for i := 0 to |userIds|
      invariant RunAll(userIds, run) == runs + RunAll(userIds[i..], run)
    {
      assert userIds[i..][1..] == userIds[i + 1..];
      var r := run(userIds[i]);
      if r.Raised? {
        runs := runs + [r];
        return;
      }
      assert runs + ([r] + RunAll(userIds[i + 1..], run)) == (runs + [r]) + RunAll(userIds[i + 1..], run);
      runs := runs + [r];
    }
    assert userIds[|userIds|..] == [];
    assert runs + [] == runs;
  }
}
