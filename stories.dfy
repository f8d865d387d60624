/**
 * `StoriesDownloader`: one `stories.get` answer is read bundle by bundle
 * and story by story; each story with a non-zero id and a usable photo or
 * video URL becomes one job "{sid}.{ext}" in `stories/files`, the photo
 * being preferred. The "stories" section records `last_run = True`.
 *
 * The API answer is the parameter `payload`; the state store is its
 * in-memory state and the files that exist are a snapshot `existing`.
 */
module Stories {
  import opened Wrappers
  import opened Text
  import opened JsonValues
  import opened Files
  import opened StateStore
  import opened Downloads
  import Naming

  /** The files directory, relative to the group directory. */
  const FilesDir: Path := ["stories", "files"]

  /** `_ext_from_url(url, default)`: the URL's extension, or `default`. */
  function ExtFromUrl(url: string, default: string): (r: string)
    ensures r == default || (1 <= |r| <= 5 && Naming.AllAlnum(r) && Naming.NoUpper(r))
    ensures '.' !in Naming.PathOf(url) ==> r == default
  {
    Naming.ExtFromUrl(url, default)
  }

  /**
   * `_select_best_photo_url(photo)`: the last size's URL when it is a
   * non-empty string; `Some(None)` when `sizes` is not a non-empty list or
   * the URL is unusable; `None` when the last size is not a dict, on which
   * `.get` raises.
   */
  function BestPhotoUrl(photo: Json): (r: Option<Option<string>>)
    requires photo.Obj?
    ensures var sizes := Or(Field(photo, "sizes"), Arr([]));
      && (!sizes.Arr? || sizes.items == [] ==> r == Some(None))
      && (sizes.Arr? && sizes.items != [] ==>
            var best := sizes.items[|sizes.items| - 1];
            && (r.None? <==> !best.Obj?)
            && (best.Obj? && IsNonEmptyStr(Field(best, "url")) ==> r == Some(Some(Field(best, "url").s)))
            && (best.Obj? && !IsNonEmptyStr(Field(best, "url")) ==> r == Some(None)))
  {
    var sizes := Or(Field(photo, "sizes"), Arr([]));
    if !sizes.Arr? || sizes.items == [] then Some(None)
    else
      var best := sizes.items[|sizes.items| - 1];
      if !best.Obj? then None
      else
        var url := Field(best, "url");
        if IsNonEmptyStr(url) then Some(Some(url.s)) else Some(None)
  }

  /** `video.get("files") or video.get("video_files") or {}`. */
  function VideoFiles(video: Json): Json
    requires video.Obj?
  {
    Or(Or(Field(video, "files"), Field(video, "video_files")), Obj([]))
  }

  /**
   * `_select_best_video_url(video)`: from the files dict, the best `mp4_*`
   * quality, else the first value starting with "http"; failing that the
   * top-level `url` when it is a non-empty string.
   */
  function BestVideoUrl(video: Json): (r: Option<string>)
    requires video.Obj?
    ensures r.Some? ==> r.value != ""
    ensures VideoFiles(video).Obj? && Naming.SelectFromFiles(VideoFiles(video).fields).Some? ==>
      r == Naming.SelectFromFiles(VideoFiles(video).fields)
    ensures !(VideoFiles(video).Obj? && Naming.SelectFromFiles(VideoFiles(video).fields).Some?) ==>
      (r.Some? <==> IsNonEmptyStr(Field(video, "url"))) && (r.Some? ==> Str(r.value) == Field(video, "url"))
  {
    var files := VideoFiles(video);
    var fromFiles := if files.Obj? then Naming.SelectFromFiles(files.fields) else None;
    if fromFiles.Some? then fromFiles
    else
      var url := Field(video, "url");
      if IsNonEmptyStr(url) then Some(url.s) else None
  }

  /** The best `mp4_*` quality wins over the other files and over the top-level URL. */
  lemma BestVideoPrefersQuality(video: Json, i: nat)
    requires video.Obj? && VideoFiles(video).Obj?
    requires i < |Naming.QualityOrder| && Naming.HasUrlAt(VideoFiles(video).fields, Naming.QualityOrder[i])
    requires forall j :: 0 <= j < i ==> !Naming.HasUrlAt(VideoFiles(video).fields, Naming.QualityOrder[j])
    ensures BestVideoUrl(video) == Some(Lookup(VideoFiles(video).fields, Naming.QualityOrder[i]).value.s)
  {
    Naming.SelectPrefersQuality(VideoFiles(video).fields, i);
  }

  /** `f"{sid}.{ext}"` in the files directory. */
  function StoryTarget(sid: int, ext: string): Path {
    FilesDir + [IntToString(sid) + "." + ext]
  }

  /** Two stories with different ids never share a file, whatever their extensions. */
  lemma StoryTargetsDistinct(a: int, ea: string, b: int, eb: string)
    requires a != b
    ensures StoryTarget(a, ea) != StoryTarget(b, eb)
  {
    if StoryTarget(a, ea) == StoryTarget(b, eb) {
      assert StoryTarget(a, ea)[2] == IntToString(a) + ['.'] + ea;
      assert StoryTarget(b, eb)[2] == IntToString(b) + ['.'] + eb;
      IntPrefixUnique(a, b, '.', ea, eb);
    }
  }

  /** `int(story.get("id", 0))`; `None` when it raises. */
  function StoryId(story: Json): Option<int>
    requires story.Obj?
  {
    ToInt(Lookup(story.fields, "id").GetOr(Int(0)))
  }

  /** `"photo" in story and isinstance(story["photo"], dict)`. */
  predicate HasPhoto(story: Json)
    requires story.Obj?
  {
    Lookup(story.fields, "photo").Some? && Lookup(story.fields, "photo").value.Obj?
  }

  /** `"video" in story and isinstance(story["video"], dict)`. */
  predicate HasVideo(story: Json)
    requires story.Obj?
  {
    Lookup(story.fields, "video").Some? && Lookup(story.fields, "video").value.Obj?
  }

  /** The photo's URL when the story has a photo dict (`Some(None)` when none is usable, `None` when reading it raises). */
  function PhotoUrlOf(story: Json): Option<Option<string>>
    requires story.Obj?
  {
    if HasPhoto(story) then BestPhotoUrl(Lookup(story.fields, "photo").value) else Some(None)
  }

  /** The video's URL when the story has a video dict. */
  function VideoUrlOf(story: Json): Option<string>
    requires story.Obj?
  {
    if HasVideo(story) then BestVideoUrl(Lookup(story.fields, "video").value) else None
  }

  /**
   * One story: `None` when reading it raises, `Some(None)` when it has id 0
   * or no usable URL, otherwise its one job: the photo's URL ("jpg" by
   * default) when there is one, else the video's ("mp4" by default).
   */
  function StoryStep(story: Json): (r: Option<Option<Job>>)
    ensures !story.Obj? ==> r.None?
    ensures story.Obj? && StoryId(story).None? ==> r.None?
    ensures story.Obj? && StoryId(story) == Some(0) ==> r == Some(None)
    ensures story.Obj? && StoryId(story).Some? && StoryId(story) != Some(0) ==>
      && (PhotoUrlOf(story).None? ==> r.None?)
      && (PhotoUrlOf(story).Some? && PhotoUrlOf(story).value.Some? ==>
            var url := PhotoUrlOf(story).value.value;
            r == Some(Some(Job(url, StoryTarget(StoryId(story).value, ExtFromUrl(url, "jpg"))))))
      && (PhotoUrlOf(story) == Some(None) && VideoUrlOf(story).Some? ==>
            var url := VideoUrlOf(story).value;
            r == Some(Some(Job(url, StoryTarget(StoryId(story).value, ExtFromUrl(url, "mp4"))))))
      && (PhotoUrlOf(story) == Some(None) && VideoUrlOf(story).None? ==> r == Some(None))
    ensures r.Some? && r.value.Some? ==> r.value.value.url != ""
  {
    if !story.Obj? then None
    else
      match StoryId(story)
      case None => None
      case Some(sid) =>
        if sid == 0 then Some(None)
        else
          match PhotoUrlOf(story)
          case None => None
          case Some(Some(url)) => Some(Some(Job(url, StoryTarget(sid, ExtFromUrl(url, "jpg")))))
          case Some(None) =>
            match VideoUrlOf(story)
            case Some(url) => Some(Some(Job(url, StoryTarget(sid, ExtFromUrl(url, "mp4")))))
            case None => Some(None)
  }

  /** The jobs of one bundle's stories, in order; `None` when a story raises. */
  function StoryJobs(stories: seq<Json>): (r: Option<seq<Job>>)
    ensures r.Some? ==> |r.value| <= |stories|
  {
    if stories == [] then Some([])
    else
      match StoryStep(stories[0])
      case None => None
      case Some(None) => StoryJobs(stories[1..])
      case Some(Some(job)) => Prepend([job], StoryJobs(stories[1..]))
  }

  /** `StoryJobs` one story at a time, from story `j` on. */
  lemma StoryJobsFrom(stories: seq<Json>, j: nat)
    requires j < |stories|
    ensures StoryJobs(stories[j..]) ==
      match StoryStep(stories[j])
      case None => None
      case Some(None) => StoryJobs(stories[j + 1..])
      case Some(Some(job)) => Prepend([job], StoryJobs(stories[j + 1..]))
  {
    assert stories[j..][1..] == stories[j + 1..];
  }

  /** The inner loop of `_collect_media_jobs`: the jobs of one bundle's stories. */
  method CollectStoryJobs(stories: seq<Json>) returns (r: Option<seq<Job>>)
    ensures r == StoryJobs(stories)
  {
    var jobs: seq<Job> := [];
    assert stories[0..] == stories;
    var all := StoryJobs(stories);
    if all.Some? {
      assert [] + all.value == all.value;
    }
    for j := 0 to |stories|
      invariant StoryJobs(stories) == Prepend(jobs, StoryJobs(stories[j..]))
    {
      StoryJobsFrom(stories, j);
      var step := StoryStep(stories[j]);
      if step.None? {
        return None;
      }
      if step.value.Some? {
        PrependStep(jobs, step.value.value, StoryJobs(stories[j + 1..]));
        jobs := jobs + [step.value.value];
      }
    }
    assert stories[|stories|..] == [];
    assert jobs + [] == jobs;
    return Some(jobs);
  }

  /**
   * The stories of one entry of `items`: the entry's "stories" list; the
   * entry itself when it is a dict whose "stories" is falsy; nothing (the
   * entry is passed over) when it is not a dict or "stories" is a truthy
   * non-list.
   */
  function EntryStories(entry: Json): (r: seq<Json>)
    ensures entry.Obj? && !Truthy(Field(entry, "stories")) ==> r == [entry]
    ensures entry.Obj? && Field(entry, "stories").Arr? && Field(entry, "stories").items != [] ==> r == Field(entry, "stories").items
    ensures !entry.Obj? ==> r == []
  {
    if !entry.Obj? then []
    else
      var stories := Field(entry, "stories");
      if !Truthy(stories) then [entry]
      else if stories.Arr? then stories.items
      else []
  }

  /** The jobs of the entries, in order; `None` when a story raises. */
  function EntriesJobs(entries: seq<Json>): Option<seq<Job>> {
    if entries == [] then Some([])
    else
      match StoryJobs(EntryStories(entries[0]))
      case None => None
      case Some(jobs) => Prepend(jobs, EntriesJobs(entries[1..]))
  }

  /** `EntriesJobs` one entry at a time, from entry `i` on. */
  lemma EntriesJobsFrom(entries: seq<Json>, i: nat)
    requires i < |entries|
    ensures EntriesJobs(entries[i..]) ==
      match StoryJobs(EntryStories(entries[i]))
      case None => None
      case Some(jobs) => Prepend(jobs, EntriesJobs(entries[i + 1..]))
  {
    assert entries[i..][1..] == entries[i + 1..];
  }

  /** `acc`, then `more`, then the jobs still to come. */
  lemma PrependTwice(acc: seq<Job>, more: seq<Job>, r: Option<seq<Job>>)
    ensures Prepend(acc, Prepend(more, r)) == Prepend(acc + more, r)
  {
    if r.Some? {
      assert acc + (more + r.value) == (acc + more) + r.value;
    }
  }

  /**
   * The entries `for entry in items` visits: none when `items` is falsy; the
   * list's elements; for a truthy dict or string, its keys or characters,
   * which are strings and so are all passed over (modelled as no entries);
   * `None` when `payload.get` or the iteration raises.
   */
  function Entries(payload: Json): (r: Option<seq<Json>>)
    ensures payload.Obj? && !Truthy(Field(payload, "items")) ==> r == Some([])
    ensures payload.Obj? && Field(payload, "items").Arr? ==> r == Some(Field(payload, "items").items)
    ensures r.None? <==> !payload.Obj? || (Truthy(Field(payload, "items")) && (Field(payload, "items").Int? || Field(payload, "items").Bool?))
  {
    if !payload.Obj? then None
    else
      var items := Field(payload, "items");
      if !Truthy(items) then Some([])
      else
        match items
        case Arr(entries) => Some(entries)
        case Obj(_) => Some([])
        case Str(_) => Some([])
        case _ => None
  }

  /** `_collect_media_jobs(payload)`: every job of every story, in order; `None` when it raises. */
  function MediaJobs(payload: Json): Option<seq<Job>> {
    match Entries(payload)
    case None => None
    case Some(entries) => EntriesJobs(entries)
  }

  /** `_collect_media_jobs`, as the downloader runs it: the loop over entries around the loop over stories. */
  method CollectMediaJobs(payload: Json) returns (r: Option<seq<Job>>)
    ensures r == MediaJobs(payload)
  {
    var entries := Entries(payload);
    if entries.None? {
      return None;
    }
    var items := entries.value;
    var jobs: seq<Job> := [];
    assert items[0..] == items;
    var all := EntriesJobs(items);
    if all.Some? {
      assert [] + all.value == all.value;
    }
    for i := 0 to |items|
      invariant EntriesJobs(items) == Prepend(jobs, EntriesJobs(items[i..]))
    {
      EntriesJobsFrom(items, i);
      var storyJobs := CollectStoryJobs(EntryStories(items[i]));
      if storyJobs.None? {
        return None;
      }
      PrependTwice(jobs, storyJobs.value, EntriesJobs(items[i + 1..]));
      jobs := jobs + storyJobs.value;
    }
    assert items[|items|..] == [];
    assert jobs + [] == jobs;
    return Some(jobs);
  }

  /** The summary `run` returns. */
  function Summary(jobs: seq<Job>): Json {
    Obj([("type", Str("stories")), ("items", Int(|jobs|)), ("files", Int(|jobs|)), ("failures", Int(0))])
  }

  /** A finished run: the jobs collected, the downloads started, the state after the update, and the summary. */
  datatype StoriesRun = StoriesRun(jobs: seq<Job>, started: seq<Job>, sections: seq<(string, Json)>, summary: Json)

  /**
   * `run`: collect the jobs; with none, record `last_run` and report zeros;
   * otherwise start the downloads whose file does not exist, then record
   * `last_run`. `None` when collecting or the state update raises.
   */
  function StoriesRunOf(payload: Json, sections: seq<(string, Json)>, existing: set<Path>): Option<StoriesRun> {
    match MediaJobs(payload)
    case None => None
    case Some(jobs) =>
      match UpdateSection(sections, "stories", [("last_run", Bool(true))])
      case None => None
      case Some(s) =>
        if jobs == [] then Some(StoriesRun([], [], s, Obj([("type", Str("stories")), ("items", Int(0)), ("files", Int(0)), ("failures", Int(0))])))
        else Some(StoriesRun(jobs, Pending(jobs, existing), s, Summary(jobs)))
  }

  /** `run`, as the downloader executes it. */
  method Run(payload: Json, sections: seq<(string, Json)>, existing: set<Path>) returns (r: Option<StoriesRun>)
    ensures r == StoriesRunOf(payload, sections, existing)
  {
    var jobs := CollectMediaJobs(payload);
    if jobs.None? {
      return None;
    }
    if jobs.value == [] {
      var s := UpdateSection(sections, "stories", [("last_run", Bool(true))]);
      if s.None? {
        return None;
      }
      return Some(StoriesRun([], [], s.value, Obj([("type", Str("stories")), ("items", Int(0)), ("files", Int(0)), ("failures", Int(0))])));
    }
    var started := DispatchPending(jobs.value, existing);
    var s := UpdateSection(sections, "stories", [("last_run", Bool(true))]);
    if s.None? {
      return None;
    }
    r := Some(StoriesRun(jobs.value, started, s.value, Summary(jobs.value)));
  }

  /**
   * Every run that finishes reports items = files = the number of jobs
   * (zero when there are none), starts exactly the jobs whose file does not
   * exist, and leaves `last_run = True` in the "stories" section while the
   * other sections keep their values.
   */
  lemma RunSummary(payload: Json, sections: seq<(string, Json)>, existing: set<Path>)
    ensures var r := StoriesRunOf(payload, sections, existing);
      r.Some? ==>
        && r.value.summary == Summary(r.value.jobs)
        && (forall j :: j in r.value.started <==> j in r.value.jobs && j.target !in existing)
        && SectionOf(r.value.sections, "stories").Some?
        && Lookup(SectionOf(r.value.sections, "stories").value, "last_run") == Some(Bool(true))
        && forall other :: other != "stories" ==> Lookup(r.value.sections, other) == Lookup(sections, other)
  {
    var r := StoriesRunOf(payload, sections, existing);
    if r.Some? {
      UpdateSectionField(sections, "stories", "last_run", Bool(true));
    }
  }

  /** Without items, or when no entry holds a story with a usable URL, nothing is downloaded and the summary is all zeros. */
  lemma RunWithoutItems(payload: Json, sections: seq<(string, Json)>, existing: set<Path>)
    requires payload.Obj? && !Truthy(Field(payload, "items"))
    requires SectionOf(sections, "stories").Some?
    ensures var r := StoriesRunOf(payload, sections, existing);
      r.Some? && r.value.jobs == [] && r.value.started == []
      && r.value.summary == Obj([("type", Str("stories")), ("items", Int(0)), ("files", Int(0)), ("failures", Int(0))])
  {
    UpdateSectionField(sections, "stories", "last_run", Bool(true));
  }
}
