/**
 * `PhotosDownloader`: the group's albums are paged from the "photos"
 * section's `albums_offset`; each album's photos are fetched from offset 0,
 * cut at the album's stored offset and at the global `remaining` budget,
 * and every photo with a usable URL and no file yet becomes a download job
 * named "{group_id}-{pid}.{ext}" in the album's directory.
 *
 * The state store is its in-memory state (`TypeStateStore.state`): the run
 * reads sections from it and applies each `update` with `UpdateSection`.
 * Which files exist is a snapshot `existing` taken before the run.
 */
module Photos {
  import opened Wrappers
  import opened Text
  import opened JsonValues
  import opened Files
  import opened Paging
  import opened StateStore
  import opened Downloads
  import Naming

  const PageSize: nat := 100

  /** The characters `_sanitize_title` replaces with a space. */
  const TitleChars: seq<char> := ['/', '\\', '|', ':', '*', '?', '"', '<', '>', '.']

  /** `_sanitize_title`: none of `TitleChars` left, no edge whitespace, never longer. */
  function SanitizeTitle(title: string): (r: string)
    ensures forall i :: 0 <= i < |r| ==> r[i] !in TitleChars
    ensures Trimmed(r) && |r| <= |title|
  {
    Naming.SanitizeClean(title, TitleChars);
    Naming.Sanitize(title, TitleChars)
  }

  /** `_ext_from_url`: the URL's extension, or "jpg". */
  function ExtFromUrl(url: string): (r: string)
    ensures r == "jpg" || (1 <= |r| <= 5 && Naming.AllAlnum(r) && Naming.NoUpper(r))
  {
    Naming.ExtFromUrl(url, "jpg")
  }

  /** `f"{group_id}-{pid}.{ext}"`. */
  function FileName(groupId: int, pid: int, url: string): string {
    IntToString(groupId) + "-" + IntToString(pid) + "." + ExtFromUrl(url)
  }

  /**
   * One photo of an album: skipped without sizes, without a URL, or when its
   * target exists; otherwise one job for the last size's URL, named after the
   * group and the photo id.
   */
  function PhotoStep(groupId: int, dir: Path, p: Json, existing: set<Path>): (r: ItemStep)
    ensures Naming.LastSizeUrl(p) == Naming.NoSizes ==> r == Skipped
    ensures Naming.LastSizeUrl(p).SizeUrl? && !Truthy(Naming.LastSizeUrl(p).url) ==> r == Skipped
    ensures r.Scheduled? ==>
      && p.Obj? && Naming.LastSizeUrl(p) == Naming.SizeUrl(Str(r.job.url)) && r.job.url != ""
      && ToInt(Field(p, "id")).Some?
      && r.job.target == dir + [FileName(groupId, ToInt(Field(p, "id")).value, r.job.url)]
      && r.job.target !in existing
    ensures Naming.LastSizeUrl(p).SizeUrl? && IsNonEmptyStr(Naming.LastSizeUrl(p).url) && p.Obj? && ToInt(Field(p, "id")).Some? ==>
      var url := Naming.LastSizeUrl(p).url.s;
      var target := dir + [FileName(groupId, ToInt(Field(p, "id")).value, url)];
      r == if target in existing then Skipped else Scheduled(Job(url, target))
  {
    match Naming.LastSizeUrl(p)
    case NoSizes => Skipped
    case SizeRaises => Raised
    case SizeUrl(url) =>
      if !Truthy(url) then Skipped
      else
        match ToInt(Field(p, "id"))
        case None => Raised
        case Some(pid) =>
          if !url.Str? then Raised
          else
            var target := dir + [FileName(groupId, pid, url.s)];
            if target in existing then Skipped else Scheduled(Job(url.s, target))
  }

  /** The jobs of an album's photos, in order; `None` when an item raises. */
  function AlbumJobs(groupId: int, dir: Path, items: seq<Json>, existing: set<Path>): (r: Option<seq<Job>>)
    ensures r.Some? ==> |r.value| <= |items|
    ensures r.Some? ==> forall k :: 0 <= k < |r.value| ==>
      r.value[k].target !in existing && r.value[k].url != ""
  {
    if items == [] then Some([])
    else
      match PhotoStep(groupId, dir, items[0], existing)
      case Raised => None
      case Skipped => AlbumJobs(groupId, dir, items[1..], existing)
      case Scheduled(job) =>
        match AlbumJobs(groupId, dir, items[1..], existing)
        case None => None
        case Some(rest) => Some([job] + rest)
  }

  /** The jobs of the items from `i` on: the step of item `i`, then the jobs of the rest. */
  lemma AlbumJobsAt(groupId: int, dir: Path, items: seq<Json>, existing: set<Path>, i: nat)
    requires i < |items|
    ensures var rest := AlbumJobs(groupId, dir, items[i + 1..], existing);
      AlbumJobs(groupId, dir, items[i..], existing) ==
        match PhotoStep(groupId, dir, items[i], existing)
        case Raised => None
        case Skipped => rest
        case Scheduled(job) => Prepend([job], rest)
  {
    assert items[i..][1..] == items[i + 1..];
    assert items[i..][0] == items[i];
  }

  /** The job-building loop over one album's items. */
  method CollectJobs(groupId: int, dir: Path, items: seq<Json>, existing: set<Path>) returns (r: Option<seq<Job>>)
    ensures r == AlbumJobs(groupId, dir, items, existing)
  {
    var tasks: seq<Job> := [];
    assert items[0..] == items;
    PrependEmpty(AlbumJobs(groupId, dir, items, existing));
    for i := 0 to |items|
      invariant AlbumJobs(groupId, dir, items, existing) == Prepend(tasks, AlbumJobs(groupId, dir, items[i..], existing))
    {
      AlbumJobsAt(groupId, dir, items, existing, i);
      var step := PhotoStep(groupId, dir, items[i], existing);
      if step.Raised? {
        return None;
      }
      if step.Scheduled? {
        PrependStep(tasks, step.job, AlbumJobs(groupId, dir, items[i + 1..], existing));
        tasks := tasks + [step.job];
      }
    }
    assert items[|items|..] == [];
    assert tasks + [] == tasks;
    return Some(tasks);
  }

  /** The album's photo pages: `photos.get` for album `aid`; an album the map lacks has none. */
  function AlbumApi(photosApi: map<int, Api>, aid: int): Api {
    if aid in photosApi then photosApi[aid] else map[]
  }

  /** The state carried across albums: the budget left, the store's state, the jobs so far and the items handled. */
  datatype RunState = RunState(remaining: Option<int>, sections: seq<(string, Json)>, jobs: seq<Job>, handled: nat)

  /** The directory of album `aid` with title `title`, below the photos root. */
  function AlbumDir(aid: int, title: Json): Path {
    ["photos", IntToString(aid) + "-" + SanitizeTitle(ToStr(title))]
  }

  /** The album's resume key, `f"album_{aid}"`. */
  function AlbumKey(aid: int): string {
    "album_" + IntToString(aid)
  }

  /** The items of an album handled in this run: past the stored offset when it is non-zero, then at most `remaining`. */
  function AlbumItems(all: seq<Json>, offset: int, remaining: Option<int>): (items: seq<Json>)
    ensures remaining.Some? && remaining.value >= 0 ==> |items| <= remaining.value
    ensures remaining.None? ==> items == DropPy(all, offset)
    ensures 0 <= offset <= |all| && (remaining.None? || |all| - offset <= remaining.value) ==> items == all[offset..]
  {
    var items := if offset != 0 then DropPy(all, offset) else all;
    if remaining.Some? && |items| > remaining.value then TakePy(items, remaining.value) else items
  }

  /** What `run` reads about an album before fetching its photos. */
  datatype AlbumInfo = AlbumInfo(aid: int, key: string, dir: Path, offset: int)

  /**
   * `int(album.get("id"))`, the album directory, and the stored offset
   * `int(state.get(f"album_{aid}").get("offset", 0))`; `None` when one of them raises.
   */
  function ReadAlbum(album: Json, sections: seq<(string, Json)>): (r: Option<AlbumInfo>)
    ensures r.Some? ==> album.Obj? && ToInt(Field(album, "id")) == Some(r.value.aid)
    ensures r.Some? ==> (r.value.key == AlbumKey(r.value.aid) && SectionOf(sections, r.value.key).Some?
                         && ResumeOffset(SectionOf(sections, r.value.key).value, "offset") == Some(r.value.offset))
  {
    match Get(album, "id", Null)
    case None => None
    case Some(idValue) =>
      match ToInt(idValue)
      case None => None
      case Some(aid) =>
        var dir := AlbumDir(aid, Get(album, "title", Str("")).value);
        match SectionOf(sections, AlbumKey(aid))
        case None => None
        case Some(section) =>
          match ResumeOffset(section, "offset")
          case None => None
          case Some(offset) => Some(AlbumInfo(aid, AlbumKey(aid), dir, offset))
  }

  /** The photos of an album the run handles, given the budget left. */
  function HandledItems(photosApi: map<int, Api>, info: AlbumInfo, remaining: Option<int>): (items: seq<Json>)
    ensures remaining.Some? && remaining.value >= 0 ==> |items| <= remaining.value
  {
    AlbumItems(Collected(AlbumApi(photosApi, info.aid), 0, PageSize), info.offset, remaining)
  }

  /** After an album's `n` handled items gave `jobs`: the jobs appended, the budget spent, the album's new offset stored. */
  function FinishAlbum(info: AlbumInfo, n: nat, jobs: seq<Job>, st: RunState): RunState
    requires SectionOf(st.sections, info.key).Some?
  {
    var sections := UpdateSection(st.sections, info.key, [("offset", Int(info.offset + n))]).value;
    var remaining := if st.remaining.Some? then Some(st.remaining.value - n) else None;
    RunState(remaining, sections, st.jobs + jobs, st.handled + n)
  }

  /** One album: `None` when reading it or one of its photos raises. */
  function AlbumStep(groupId: int, photosApi: map<int, Api>, album: Json, existing: set<Path>, st: RunState): (r: Option<RunState>)
    ensures r.Some? ==> ReadAlbum(album, st.sections).Some?
  {
    match ReadAlbum(album, st.sections)
    case None => None
    case Some(info) =>
      var items := HandledItems(photosApi, info, st.remaining);
      match AlbumJobs(groupId, info.dir, items, existing)
      case None => None
      case Some(jobs) => Some(FinishAlbum(info, |items|, jobs, st))
  }

  /** The loop over albums: stop once the budget is spent, otherwise handle the next album. */
  function AlbumsRun(groupId: int, photosApi: map<int, Api>, albums: seq<Json>, existing: set<Path>, st: RunState): Option<RunState>
    decreases |albums|
  {
    if albums == [] then Some(st)
    else if st.remaining.Some? && st.remaining.value <= 0 then Some(st)
    else
      match AlbumStep(groupId, photosApi, albums[0], existing, st)
      case None => None
      case Some(st') => AlbumsRun(groupId, photosApi, albums[1..], existing, st')
  }

  /** The end of a run: the final state (`None` when it raised), and the album offsets persisted on the way. */
  datatype PhotosOutcome = PhotosOutcome(result: Option<RunState>, albumsPersisted: seq<int>)

  /**
   * `run`: page the albums from the stored `albums_offset`, then handle the
   * albums in order with the budget `max_items`.
   */
  function PhotosRun(groupId: int, albumsApi: Api, photosApi: map<int, Api>, sections: seq<(string, Json)>,
                     maxItems: Option<int>, existing: set<Path>): PhotosOutcome
  {
    match SectionOf(sections, "photos")
    case None => PhotosOutcome(None, [])
    case Some(section) =>
      match ResumeOffset(section, "albums_offset")
      case None => PhotosOutcome(None, [])
      case Some(start) =>
        var fetched := Fetch(albumsApi, start, PageSize, None, []);
        match PersistOffsets(sections, "photos", "albums_offset", fetched.persisted)
        case None => PhotosOutcome(None, fetched.persisted)
        case Some(s) =>
          PhotosOutcome(AlbumsRun(groupId, photosApi, fetched.items, existing, RunState(maxItems, s, [], 0)), fetched.persisted)
  }

  /** `run`, as the downloader executes it: the album fetch, then one album at a time. */
  method Run(groupId: int, albumsApi: Api, photosApi: map<int, Api>, sections: seq<(string, Json)>,
             maxItems: Option<int>, existing: set<Path>) returns (result: Option<RunState>, albumsPersisted: seq<int>)
    ensures PhotosOutcome(result, albumsPersisted) == PhotosRun(groupId, albumsApi, photosApi, sections, maxItems, existing)
  {
    var section := SectionOf(sections, "photos");
    if section.None? {
      return None, [];
    }
    var start := ResumeOffset(section.value, "albums_offset");
    if start.None? {
      return None, [];
    }
    var albums;
    albums, albumsPersisted := FetchAll(albumsApi, start.value, PageSize, None);
    var s := PersistOffsets(sections, "photos", "albums_offset", albumsPersisted);
    if s.None? {
      return None, albumsPersisted;
    }
    var st := RunState(maxItems, s.value, [], 0);
    var i := 0;
    while i < |albums|
      invariant 0 <= i <= |albums|
      invariant AlbumsRun(groupId, photosApi, albums, existing, RunState(maxItems, s.value, [], 0))
             == AlbumsRun(groupId, photosApi, albums[i..], existing, st)
    {
      assert albums[i..][1..] == albums[i + 1..];
      if st.remaining.Some? && st.remaining.value <= 0 {
        break;
      }
      var info := ReadAlbum(albums[i], st.sections);
      if info.None? {
        AlbumsRunStep(groupId, photosApi, albums[i..], existing, st);
        return None, albumsPersisted;
      }
      var items := HandledItems(photosApi, info.value, st.remaining);
      var jobs := CollectJobs(groupId, info.value.dir, items, existing);
      if jobs.None? {
        AlbumsRunStep(groupId, photosApi, albums[i..], existing, st);
        return None, albumsPersisted;
      }
      AlbumsRunStep(groupId, photosApi, albums[i..], existing, st);
      st := FinishAlbum(info.value, |items|, jobs.value, st);
      i := i + 1;
    }
    result := Some(st);
  }

  // ---------------------------------------------------------------------
  // What a run guarantees
  // ---------------------------------------------------------------------

  /**
   * The budget: an album handles at most what is left of `remaining`, which
   * drops by exactly the items handled, and it schedules at most one job per
   * item handled.
   */
  lemma AlbumStepBudget(groupId: int, photosApi: map<int, Api>, album: Json, existing: set<Path>, st: RunState)
    requires st.remaining.Some? ==> st.remaining.value > 0
    ensures var r := AlbumStep(groupId, photosApi, album, existing, st);
      r.Some? ==>
        && st.handled <= r.value.handled
        && (st.remaining.Some? ==> r.value.remaining == Some(st.remaining.value - (r.value.handled - st.handled)) && r.value.handled - st.handled <= st.remaining.value)
        && (st.remaining.None? ==> r.value.remaining.None?)
        && |r.value.jobs| - |st.jobs| <= r.value.handled - st.handled
  {
    if AlbumStep(groupId, photosApi, album, existing, st).Some? {
      AlbumStepFinishes(groupId, photosApi, album, existing, st);
      var info := ReadAlbum(album, st.sections).value;
      var items := HandledItems(photosApi, info, st.remaining);
      var jobs := AlbumJobs(groupId, info.dir, items, existing).value;
      var n := |items|;
      FinishAlbumFields(info, n, jobs, st);
      var r := AlbumStep(groupId, photosApi, album, existing, st).value;
      assert r.handled - st.handled == n;
      assert st.remaining.Some? ==> r.remaining == Some(st.remaining.value - n);
    }
  }

  /**
   * With `max_items = m`, a run handles at most `max(m, 0)` photos over all
   * albums and schedules at most as many jobs.
   */
  lemma {:induction false} AlbumsRunBudget(groupId: int, photosApi: map<int, Api>, albums: seq<Json>, existing: set<Path>, st: RunState, m: int)
    requires st.remaining == Some(m)
    requires |st.jobs| <= st.handled
    ensures var r := AlbumsRun(groupId, photosApi, albums, existing, st);
      r.Some? ==> r.value.handled <= st.handled + (if m < 0 then 0 else m) && |r.value.jobs| <= r.value.handled
    decreases |albums|
  {
    if albums != [] && m > 0 {
      AlbumStepBudget(groupId, photosApi, albums[0], existing, st);
      var next := AlbumStep(groupId, photosApi, albums[0], existing, st);
      if next.Some? {
        AlbumsRunBudget(groupId, photosApi, albums[1..], existing, next.value, next.value.remaining.value);
      }
    }
  }

  /** A run with `max_items = m` schedules at most `max(m, 0)` downloads. */
  lemma RunBudget(groupId: int, albumsApi: Api, photosApi: map<int, Api>, sections: seq<(string, Json)>, m: int, existing: set<Path>)
    ensures var r := PhotosRun(groupId, albumsApi, photosApi, sections, Some(m), existing).result;
      r.Some? ==> |r.value.jobs| <= r.value.handled <= (if m < 0 then 0 else m)
  {
    var section := SectionOf(sections, "photos");
    if section.Some? && ResumeOffset(section.value, "albums_offset").Some? {
      var fetched := Fetch(albumsApi, ResumeOffset(section.value, "albums_offset").value, PageSize, None, []);
      var s := PersistOffsets(sections, "photos", "albums_offset", fetched.persisted);
      if s.Some? {
        AlbumsRunBudget(groupId, photosApi, fetched.items, existing, RunState(Some(m), s.value, [], 0), m);
      }
    }
  }

  /**
   * After an album of `n` handled items, its section's `offset` is the old
   * offset plus `n`, so the next run resumes right after them, and every
   * other section is as it was.
   */
  lemma FinishAlbumOffset(info: AlbumInfo, n: nat, jobs: seq<Job>, st: RunState)
    requires SectionOf(st.sections, info.key).Some?
    ensures var r := FinishAlbum(info, n, jobs, st);
      && SectionOf(r.sections, info.key).Some?
      && Lookup(SectionOf(r.sections, info.key).value, "offset") == Some(Int(info.offset + n))
      && ResumeOffset(SectionOf(r.sections, info.key).value, "offset") == Some(info.offset + n)
      && forall other :: other != info.key ==> Lookup(r.sections, other) == Lookup(st.sections, other)
  {
    FinishAlbumSections(info, n, jobs, st);
    UpdateSectionField(st.sections, info.key, "offset", Int(info.offset + n));
  }

  /** The sections after an album are the stored ones with the album's `offset` updated. */
  lemma FinishAlbumSections(info: AlbumInfo, n: nat, jobs: seq<Job>, st: RunState)
    requires SectionOf(st.sections, info.key).Some?
    ensures FinishAlbum(info, n, jobs, st).sections == UpdateSection(st.sections, info.key, [("offset", Int(info.offset + n))]).value
  {
    var r := FinishAlbum(info, n, jobs, st);
    assert r.sections == UpdateSection(st.sections, info.key, [("offset", Int(info.offset + n))]).value;
  }

  /** Finishing an album appends its jobs, counts its items as handled and takes them off the budget. */
  lemma FinishAlbumFields(info: AlbumInfo, n: nat, jobs: seq<Job>, st: RunState)
    requires SectionOf(st.sections, info.key).Some?
    ensures var r := FinishAlbum(info, n, jobs, st);
      && r.jobs == st.jobs + jobs && r.handled == st.handled + n
      && r.remaining == (if st.remaining.Some? then Some(st.remaining.value - n) else None)
  {
  }

  /** A handled album is `FinishAlbum` applied to what it read, the items it handled and the jobs they gave. */
  lemma AlbumStepFinishes(groupId: int, photosApi: map<int, Api>, album: Json, existing: set<Path>, st: RunState)
    requires AlbumStep(groupId, photosApi, album, existing, st).Some?
    ensures var info := ReadAlbum(album, st.sections).value;
      var items := HandledItems(photosApi, info, st.remaining);
      && AlbumJobs(groupId, info.dir, items, existing).Some?
      && AlbumStep(groupId, photosApi, album, existing, st) == Some(FinishAlbum(info, |items|, AlbumJobs(groupId, info.dir, items, existing).value, st))
  {
  }

  /** The album loop, one step: a handled album passes its state on to the rest of the albums. */
  lemma AlbumsRunStep(groupId: int, photosApi: map<int, Api>, albums: seq<Json>, existing: set<Path>, st: RunState)
    requires albums != [] && !(st.remaining.Some? && st.remaining.value <= 0)
    ensures AlbumStep(groupId, photosApi, albums[0], existing, st).None? ==> AlbumsRun(groupId, photosApi, albums, existing, st).None?
    ensures AlbumStep(groupId, photosApi, albums[0], existing, st).Some? ==>
      AlbumsRun(groupId, photosApi, albums, existing, st)
      == AlbumsRun(groupId, photosApi, albums[1..], existing, AlbumStep(groupId, photosApi, albums[0], existing, st).value)
  {
  }

  /** An album schedules only fresh jobs, so the jobs scheduled so far stay fresh. */
  lemma AlbumStepSkipsExisting(groupId: int, photosApi: map<int, Api>, album: Json, existing: set<Path>, st: RunState)
    requires FreshJobs(st.jobs, existing)
    ensures var r := AlbumStep(groupId, photosApi, album, existing, st); r.Some? ==> FreshJobs(r.value.jobs, existing)
  {
    if AlbumStep(groupId, photosApi, album, existing, st).Some? {
      AlbumStepFinishes(groupId, photosApi, album, existing, st);
      var info := ReadAlbum(album, st.sections).value;
      var items := HandledItems(photosApi, info, st.remaining);
      var jobs := AlbumJobs(groupId, info.dir, items, existing).value;
      FinishAlbumFields(info, |items|, jobs, st);
      FreshJobsAppend(st.jobs, jobs, existing);
    }
  }

  /** Photos already on disk are never fetched again: no job of a run targets an existing file, and every job has a URL. */
  lemma {:induction false} AlbumsRunSkipsExisting(groupId: int, photosApi: map<int, Api>, albums: seq<Json>, existing: set<Path>, st: RunState)
    requires FreshJobs(st.jobs, existing)
    ensures var r := AlbumsRun(groupId, photosApi, albums, existing, st); r.Some? ==> FreshJobs(r.value.jobs, existing)
    decreases |albums|
  {
    if albums != [] && !(st.remaining.Some? && st.remaining.value <= 0) {
      AlbumsRunStep(groupId, photosApi, albums, existing, st);
      AlbumStepSkipsExisting(groupId, photosApi, albums[0], existing, st);
      var next := AlbumStep(groupId, photosApi, albums[0], existing, st);
      if next.Some? {
        AlbumsRunSkipsExisting(groupId, photosApi, albums[1..], existing, next.value);
      }
    }
  }
}
