/**
 * The helpers the photo downloaders share: `decline` (a user's name in the
 * genitive case, for log lines), `download_photo` / `download_photos` and
 * the naming of `download_videos`.
 *
 * The declension library is a function passed in; an HTTP request is a
 * value too: the server's `Response`, or `None` when the request raises.
 * The downloads run concurrently in the source; here they run one after
 * the other in list order.
 */
module Functions {
  import opened Wrappers
  import opened JsonValues
  import opened Files
  import opened Downloads
  import VkUtils

  // ---------------------------------------------------------------------
  // `decline`
  // ---------------------------------------------------------------------

  datatype NamePart = FirstName | LastName
  datatype Gender = Female | Male

  /** `sex == 1` / `sex == 2` in Python, where `True == 1`. */
  function GenderOf(sex: Json): (g: Option<Gender>)
    ensures g == Some(Female) <==> sex == Int(1) || sex == Bool(true)
    ensures g == Some(Male) <==> sex == Int(2)
  {
    match sex
    case Int(n) => if n == 1 then Some(Female) else if n == 2 then Some(Male) else None
    case Bool(b) => if b then Some(Female) else None
    case _ => None
  }

  /**
   * `decline(first_name, last_name, sex)`: both names put in the genitive
   * of the gender `sex` stands for (1 female, 2 male) by `genitive`, and
   * joined by a space; any other `sex` leaves them as they are.
   */
  function Decline(first: Json, last: Json, sex: Json, genitive: (NamePart, Gender, Json) -> string): (r: string)
    ensures GenderOf(sex).Some? ==>
      r == genitive(FirstName, GenderOf(sex).value, first) + " " + genitive(LastName, GenderOf(sex).value, last)
  {
    match GenderOf(sex)
    case Some(g) => genitive(FirstName, g, first) + " " + genitive(LastName, g, last)
    case None => ToStr(first) + " " + ToStr(last)
  }

  /**
   * For a `sex` that is neither 1 nor 2 the names are not declined: the
   * result is the user name `get_username` builds from the same fields.
   */
  lemma DeclineUnchanged(first: Json, last: Json, sex: Json, genitive: (NamePart, Gender, Json) -> string)
    requires GenderOf(sex).None?
    ensures Some(Decline(first, last, sex, genitive)) ==
      VkUtils.GetUsername(Arr([Obj([("first_name", first)] + [("last_name", last)])]))
  {
    var user := Obj([("first_name", first)] + [("last_name", last)]);
    LookupFront("first_name", first, [("last_name", last)], "first_name");
    LookupFront("first_name", first, [("last_name", last)], "last_name");
    LookupFront("last_name", last, [], "last_name");
    assert First(Arr([user])) == Some(user);
  }

  // ---------------------------------------------------------------------
  // `download_photo`
  // ---------------------------------------------------------------------

  /** How one `download_photo` ended; it never raises. */
  datatype PhotoOutcome =
    | Present          // the target existed: no request was made
    | Refused(status: int) // the server answered with another status than 200: nothing written
    | Written          // the body is now the target's content
    | Swallowed        // the request or the write raised; the exception was printed

  /**
   * `download_photo(session, url, path)`: a target that exists is left
   * alone without a request; otherwise the body is written only on status
   * 200; an exception from the request or the write is caught.
   */
  method DownloadPhoto(fs: FileSystem, target: Path, reply: Option<Response>) returns (o: PhotoOutcome)
    modifies fs
    ensures old(fs.Exists(target)) <==> o == Present
    ensures o == Written <==> (!old(fs.Exists(target)) && reply.Some? && reply.value.status == 200
      && old(fs.IsDir(Parent(target))))
    ensures o.Refused? <==> !old(fs.Exists(target)) && reply.Some? && reply.value.status != 200
    ensures o == Written ==> fs.files == old(fs.files)[target := reply.value.body]
    ensures o != Written ==> fs.files == old(fs.files)
    ensures fs.dirs == old(fs.dirs)
  {
    if fs.Exists(target) {
      return Present;
    }
    if reply.None? {
      return Swallowed;
    }
    if reply.value.status != 200 {
      return Refused(reply.value.status);
    }
    var written := fs.WriteFile(target, reply.value.body);
    if written.Err? {
      return Swallowed;
    }
    return Written;
  }

  // ---------------------------------------------------------------------
  // `download_photos`
  // ---------------------------------------------------------------------

  /** One scheduled download: the URL it requests and the file it writes. */
  datatype PhotoJob = PhotoJob(url: Json, target: Path)

  /** `"{}_{}.<ext>".format(item["owner_id"], item["id"])`; `None` when a key is missing. */
  function FileName(item: Json, ext: string): (r: Option<string>)
    ensures r.Some? <==> Item(item, "owner_id").Some? && Item(item, "id").Some?
    ensures r.Some? ==> r.value == ToStr(Field(item, "owner_id")) + "_" + ToStr(Field(item, "id")) + "." + ext
  {
    match Item(item, "owner_id")
    case None => None
    case Some(owner) =>
      match Item(item, "id")
      case None => None
      case Some(id) => Some(ToStr(owner) + "_" + ToStr(id) + "." + ext)
  }

  /** The job the loop of `download_photos` schedules for one photo; `None` when a key is missing. */
  function PhotoJobOf(dir: Path, photo: Json): Option<PhotoJob> {
    match FileName(photo, "jpg")
    case None => None
    case Some(name) =>
      match Item(photo, "url")
      case None => None
      case Some(url) => Some(PhotoJob(url, dir + [name]))
  }

  /** The jobs `download_photos` schedules before it awaits any of them. */
  function PhotoJobs(dir: Path, photos: seq<Json>): Option<seq<PhotoJob>> {
    MapAll(photos, (p: Json) => PhotoJobOf(dir, p))
  }

  /**
   * `download_photos` schedules exactly one job per photo, in order, that
   * requests `photo["url"]` into `"{owner_id}_{id}.jpg"` under the folder,
   * and raises (scheduling nothing) exactly when a photo lacks one of the
   * three keys.
   */
  lemma PhotoJobsEach(dir: Path, photos: seq<Json>)
    ensures var jobs := PhotoJobs(dir, photos);
      && (jobs.Some? <==> forall k :: 0 <= k < |photos| ==>
            Item(photos[k], "owner_id").Some? && Item(photos[k], "id").Some? && Item(photos[k], "url").Some?)
      && (jobs.Some? ==> |jobs.value| == |photos| && forall k :: 0 <= k < |photos| ==>
            jobs.value[k] == PhotoJob(Field(photos[k], "url"), dir + [FileName(photos[k], "jpg").value]))
  {
    MapAllEach(photos, (p: Json) => PhotoJobOf(dir, p));
  }

  /** Some job of `jobs` targets `t` and got `body` with status 200. */
  predicate Delivered(jobs: seq<PhotoJob>, replies: Json -> Option<Response>, t: Path, body: seq<byte>) {
    exists k :: 0 <= k < |jobs| && jobs[k].target == t && replies(jobs[k].url) == Some(Response(200, body))
  }

  /** Every file of `start` is in `now` with the same content. */
  predicate Keeps(start: map<Path, seq<byte>>, now: map<Path, seq<byte>>) {
    forall t :: t in start ==> t in now && now[t] == start[t]
  }

  /** Every file of `now` that `start` lacks was delivered by one of `jobs`. */
  predicate AllDelivered(start: map<Path, seq<byte>>, now: map<Path, seq<byte>>, jobs: seq<PhotoJob>, replies: Json -> Option<Response>) {
    forall t :: t in now && t !in start ==> Delivered(jobs, replies, t, now[t])
  }

  /** One more job awaited: either nothing changed, or its target was new and got its 200 body. */
  lemma AwaitStep(start: map<Path, seq<byte>>, before: map<Path, seq<byte>>, after: map<Path, seq<byte>>,
                  jobs: seq<PhotoJob>, i: nat, replies: Json -> Option<Response>)
    requires i < |jobs| && Keeps(start, before) && AllDelivered(start, before, jobs[..i], replies)
    requires after == before || (jobs[i].target !in before && replies(jobs[i].url).Some?
      && replies(jobs[i].url).value.status == 200 && after == before[jobs[i].target := replies(jobs[i].url).value.body])
    ensures Keeps(start, after) && AllDelivered(start, after, jobs[..i + 1], replies)
  {
    forall t | t in after && t !in start
      ensures Delivered(jobs[..i + 1], replies, t, after[t])
    {
      if after != before && t == jobs[i].target {
        assert jobs[..i + 1][i] == jobs[i];
      } else {
        assert Delivered(jobs[..i], replies, t, after[t]);
        var k :| 0 <= k < i && jobs[..i][k].target == t && replies(jobs[..i][k].url) == Some(Response(200, after[t]));
        assert jobs[..i + 1][k] == jobs[..i][k];
      }
    }
  }

  /** The server answered the job's request with status 200. */
  predicate Ok200(job: PhotoJob, replies: Json -> Option<Response>) {
    replies(job.url).Some? && replies(job.url).value.status == 200
  }

  /** The body of the first job of `jobs` that targets `t` and got status 200. */
  function FirstBody(jobs: seq<PhotoJob>, replies: Json -> Option<Response>, t: Path): Option<seq<byte>> {
    if jobs == [] then None
    else
      var earlier := FirstBody(jobs[..|jobs| - 1], replies, t);
      var last := jobs[|jobs| - 1];
      if earlier.Some? then earlier
      else if last.target == t && Ok200(last, replies) then Some(replies(last.url).value.body)
      else None
  }

  /** A first 200 body for `t` comes from a job that targets `t`. */
  lemma {:induction false} FirstBodyFrom(jobs: seq<PhotoJob>, replies: Json -> Option<Response>, t: Path)
    requires FirstBody(jobs, replies, t).Some?
    ensures exists k :: 0 <= k < |jobs| && jobs[k].target == t && Ok200(jobs[k], replies)
  {
    var earlier := FirstBody(jobs[..|jobs| - 1], replies, t);
    if earlier.Some? {
      FirstBodyFrom(jobs[..|jobs| - 1], replies, t);
      var k :| 0 <= k < |jobs| - 1 && jobs[..|jobs| - 1][k].target == t && Ok200(jobs[..|jobs| - 1][k], replies);
      assert jobs[k] == jobs[..|jobs| - 1][k];
    }
  }

  /** `Path.exists()` on a disk given by its files and directories. */
  predicate ExistsOn(files: map<Path, seq<byte>>, dirs: set<Path>, p: Path) {
    p == [] || p in files || p in dirs
  }

  /** Every job answered 200 whose folder is a directory has its target present. */
  predicate Served(jobs: seq<PhotoJob>, replies: Json -> Option<Response>, files: map<Path, seq<byte>>, dirs: set<Path>) {
    forall k :: (0 <= k < |jobs| && jobs[k].target != [] && Ok200(jobs[k], replies)
      && (Parent(jobs[k].target) == [] || Parent(jobs[k].target) in dirs)) ==> ExistsOn(files, dirs, jobs[k].target)
  }

  /** Every new file holds the body of the first job that targets it and got status 200. */
  predicate FirstWins(start: map<Path, seq<byte>>, now: map<Path, seq<byte>>, jobs: seq<PhotoJob>, replies: Json -> Option<Response>) {
    forall t :: t in now && t !in start ==> FirstBody(jobs, replies, t) == Some(now[t])
  }

  /**
   * One more job awaited: its target is written exactly when it did not
   * exist, the answer is 200 and its folder exists. Then every job so far
   * that could land has landed, and each new file holds its first 200 body.
   */
  lemma AwaitLands(start: map<Path, seq<byte>>, before: map<Path, seq<byte>>, after: map<Path, seq<byte>>,
                   dirs: set<Path>, jobs: seq<PhotoJob>, i: nat, replies: Json -> Option<Response>)
    requires i < |jobs| && Keeps(start, before)
    requires Served(jobs[..i], replies, before, dirs) && FirstWins(start, before, jobs[..i], replies)
    requires var t := jobs[i].target;
      if !ExistsOn(before, dirs, t) && Ok200(jobs[i], replies) && (Parent(t) == [] || Parent(t) in dirs)
      then after == before[t := replies(jobs[i].url).value.body]
      else after == before
    ensures Served(jobs[..i + 1], replies, after, dirs) && FirstWins(start, after, jobs[..i + 1], replies)
  {
    var t, js := jobs[i].target, jobs[..i + 1];
    assert js[..i] == jobs[..i];
    if after != before && FirstBody(jobs[..i], replies, t).Some? {
      FirstBodyFrom(jobs[..i], replies, t);
    }
  }

  /**
   * `download_photos(path, photos)`: the jobs are all scheduled first (a
   * missing key raises before any download starts), then each is awaited.
   * No file that existed is touched and no directory is made. Every job
   * whose target did not exist, whose folder exists and whose answer is 200
   * lands, and every new file holds the 200 body of the first job that
   * targets it.
   */
  method DownloadPhotos(fs: FileSystem, dir: Path, photos: seq<Json>, replies: Json -> Option<Response>)
      returns (raised: bool)
    modifies fs
    ensures raised <==> PhotoJobs(dir, photos).None?
    ensures raised ==> fs.files == old(fs.files)
    ensures fs.dirs == old(fs.dirs)
    ensures Keeps(old(fs.files), fs.files)
    ensures !raised ==> AllDelivered(old(fs.files), fs.files, PhotoJobs(dir, photos).value, replies)
    ensures !raised ==> var jobs := PhotoJobs(dir, photos).value;
      forall k :: (0 <= k < |jobs| && !old(fs.Exists(jobs[k].target)) && Ok200(jobs[k], replies)
        && fs.IsDir(Parent(jobs[k].target))) ==> jobs[k].target in fs.files
    ensures !raised ==> FirstWins(old(fs.files), fs.files, PhotoJobs(dir, photos).value, replies)
  {
    var jobs := MapEach(photos, (p: Json) => PhotoJobOf(dir, p));
    if jobs.None? {
      return true;
    }
    var scheduled := jobs.value;
    for i := 0 to |scheduled|
      invariant fs.dirs == old(fs.dirs)
      invariant Keeps(old(fs.files), fs.files)
      invariant AllDelivered(old(fs.files), fs.files, scheduled[..i], replies)
      invariant Served(scheduled[..i], replies, fs.files, fs.dirs)
      invariant FirstWins(old(fs.files), fs.files, scheduled[..i], replies)
    {
      var job := scheduled[i];
      ghost var before := fs.files;
      var o := DownloadPhoto(fs, job.target, replies(job.url));
      AwaitStep(old(fs.files), before, fs.files, scheduled, i, replies);
      AwaitLands(old(fs.files), before, fs.files, fs.dirs, scheduled, i, replies);
    }
    assert scheduled[..|scheduled|] == scheduled;
    return false;
  }

  // ---------------------------------------------------------------------
  // `download_videos`
  // ---------------------------------------------------------------------

  /** One scheduled video download: the player link handed to yt-dlp and the file it writes. */
  datatype VideoJob = VideoJob(player: Json, target: Path)

  /** The job the loop of `download_videos` schedules for one video; `None` when a key is missing. */
  function VideoJobOf(dir: Path, video: Json): Option<VideoJob> {
    match FileName(video, "mp4")
    case None => None
    case Some(name) =>
      match Item(video, "player")
      case None => None
      case Some(player) => Some(VideoJob(player, dir + [name]))
  }

  /** The jobs `download_videos` schedules before it awaits any of them. */
  function VideoJobs(dir: Path, videos: seq<Json>): Option<seq<VideoJob>> {
    MapAll(videos, (v: Json) => VideoJobOf(dir, v))
  }

  /**
   * `download_videos` schedules one job per video, in order, that hands
   * `video["player"]` to yt-dlp with the target `"{owner_id}_{id}.mp4"`,
   * and raises exactly when a video lacks one of the three keys.
   */
  lemma VideoJobsEach(dir: Path, videos: seq<Json>)
    ensures var jobs := VideoJobs(dir, videos);
      && (jobs.Some? <==> forall k :: 0 <= k < |videos| ==>
            Item(videos[k], "owner_id").Some? && Item(videos[k], "id").Some? && Item(videos[k], "player").Some?)
      && (jobs.Some? ==> |jobs.value| == |videos| && forall k :: 0 <= k < |videos| ==>
            jobs.value[k] == VideoJob(Field(videos[k], "player"), dir + [FileName(videos[k], "mp4").value]))
  {
    MapAllEach(videos, (v: Json) => VideoJobOf(dir, v));
  }
}
