/**
 * `VideosDownloader`: the group's videos are paged from the "videos"
 * section's `offset`, 100 at a time and at most `max_items`; each video is
 * fetched directly from its best `files` URL when it has one, and otherwise
 * through its `player` page (yt-dlp), into `videos/files/{id}.mp4`.
 *
 * As for the other downloaders, the state store is its in-memory state and
 * the files that exist are a snapshot `existing` taken before the run.
 */
module Videos {
  import opened Wrappers
  import opened Text
  import opened JsonValues
  import opened Files
  import opened Paging
  import opened Downloads
  import opened Resumable
  import Naming

  const PageSize: nat := 100

  /** The files directory, relative to the group directory. */
  const FilesDir: Path := ["videos", "files"]

  /**
   * `_select_best_video_file(files)`: `None` for a non-dict; otherwise the
   * URL of the best `mp4_*` quality present, else the first value starting
   * with "http".
   */
  function SelectBestVideoFile(files: Json): (r: Option<string>)
    ensures !files.Obj? ==> r.None?
    ensures r.Some? ==> r.value != "" && Str(r.value) in Naming.Values(files.fields)
    ensures files.Obj? ==>
      (r.None? <==> ((forall i :: 0 <= i < |Naming.QualityOrder| ==> !Naming.HasUrlAt(files.fields, Naming.QualityOrder[i]))
                     && (forall k :: 0 <= k < |files.fields| ==> !Naming.IsHttp(files.fields[k].1))))
  {
    if files.Obj? then Naming.SelectFromFiles(files.fields) else None
  }

  /** The best quality wins: the first `mp4_*` key, from 2160 down, that holds a URL is the one chosen. */
  lemma SelectBestVideoPrefersQuality(files: Json, i: nat)
    requires files.Obj? && i < |Naming.QualityOrder| && Naming.HasUrlAt(files.fields, Naming.QualityOrder[i])
    requires forall j :: 0 <= j < i ==> !Naming.HasUrlAt(files.fields, Naming.QualityOrder[j])
    ensures SelectBestVideoFile(files) == Some(Lookup(files.fields, Naming.QualityOrder[i]).value.s)
  {
    Naming.SelectPrefersQuality(files.fields, i);
  }

  /** `f"{vid_id}.mp4"` in the files directory. */
  function VideoTarget(vidId: int): Path {
    FilesDir + [IntToString(vidId) + ".mp4"]
  }

  /** Different videos never share a file. */
  lemma VideoTargetsDistinct(a: int, b: int)
    requires a != b
    ensures VideoTarget(a) != VideoTarget(b)
  {
    if VideoTarget(a) == VideoTarget(b) {
      assert VideoTarget(a)[2] == IntToString(a) + ['.'] + "mp4";
      assert VideoTarget(b)[2] == IntToString(b) + ['.'] + "mp4";
      IntPrefixUnique(a, b, '.', "mp4", "mp4");
    }
  }

  /** A yt-dlp job: `{"owner_id": ..., "id": ..., "player": ...}`. */
  datatype PlayerJob = PlayerJob(ownerId: int, id: int, player: string)

  /** What the planning loop does with one video. */
  datatype VideoPlan =
    | Direct(job: Job)       // a direct download of its best file
    | Player(p: PlayerJob)   // a yt-dlp download of its player page
    | Neither                // nothing to download

  /** The `files` value as `vid.get("files") or {}` sees it. */
  function FilesOf(vid: Json): Json
    requires vid.Obj?
  {
    Or(Field(vid, "files"), Obj([]))
  }

  /**
   * One video: `int(vid.get("id"))` and `int(vid.get("owner_id"))` raise
   * (`None`) on a non-dict or a missing or non-numeric id; a video with a
   * usable file is downloaded directly, otherwise one with a non-empty
   * player string through yt-dlp, never both.
   */
  function VideoStep(vid: Json): (r: Option<VideoPlan>)
    ensures r.Some? <==> vid.Obj? && ToInt(Field(vid, "id")).Some? && ToInt(Field(vid, "owner_id")).Some?
    ensures r.Some? && SelectBestVideoFile(FilesOf(vid)).Some? ==>
      r.value == Direct(Job(SelectBestVideoFile(FilesOf(vid)).value, VideoTarget(ToInt(Field(vid, "id")).value)))
    ensures r.Some? && SelectBestVideoFile(FilesOf(vid)).None? ==>
      (r.value.Player? <==> IsNonEmptyStr(Field(vid, "player")))
    ensures r.Some? && r.value.Player? ==>
      r.value.p == PlayerJob(ToInt(Field(vid, "owner_id")).value, ToInt(Field(vid, "id")).value, Field(vid, "player").s)
    ensures r.Some? && r.value.Direct? ==> r.value.job.url != ""
  {
    if !vid.Obj? then None
    else
      match ToInt(Field(vid, "id"))
      case None => None
      case Some(vidId) =>
        match ToInt(Field(vid, "owner_id"))
        case None => None
        case Some(ownerId) =>
          match SelectBestVideoFile(FilesOf(vid))
          case Some(url) => Some(Direct(Job(url, VideoTarget(vidId))))
          case None =>
            var player := Field(vid, "player");
            if IsNonEmptyStr(player) then Some(Player(PlayerJob(ownerId, vidId, player.s)))
            else Some(Neither)
  }

  /** The two lists the planning loop builds. */
  datatype Plan = Plan(direct: seq<Job>, players: seq<PlayerJob>)

  /** One video's contribution to the plan. */
  function PlanOf(step: VideoPlan): Plan {
    match step
    case Direct(job) => Plan([job], [])
    case Player(p) => Plan([], [p])
    case Neither => Plan([], [])
  }

  /** Both lists of `a`, each followed by the same list of `b`. */
  function Concat(a: Plan, b: Plan): Plan {
    Plan(a.direct + b.direct, a.players + b.players)
  }

  /** `acc` followed by the plan still to come, when building it does not raise. */
  function Then(acc: Plan, r: Option<Plan>): Option<Plan> {
    match r
    case None => None
    case Some(p) => Some(Concat(acc, p))
  }

  /** The plan of the fetched videos, in order; `None` when a video raises. */
  function VideosPlan(videos: seq<Json>): (r: Option<Plan>)
    ensures r.Some? ==> |r.value.direct| + |r.value.players| <= |videos|
  {
    if videos == [] then Some(Plan([], []))
    else
      match VideoStep(videos[0])
      case None => None
      case Some(step) =>
        match VideosPlan(videos[1..])
        case None => None
        case Some(rest) =>
          Some(Concat(PlanOf(step), rest))
  }

  /** `VideosPlan` one video at a time, from video `i` on. */
  lemma VideosPlanFrom(videos: seq<Json>, i: nat)
    requires i < |videos|
    ensures VideosPlan(videos[i..]) ==
      match VideoStep(videos[i])
      case None => None
      case Some(step) => Then(PlanOf(step), VideosPlan(videos[i + 1..]))
  {
    assert videos[i..][1..] == videos[i + 1..];
  }

  /** Moving one video's contribution from the plan to come onto the plan so far. */
  lemma ThenStep(acc: Plan, p: Plan, r: Option<Plan>)
    ensures Then(acc, Then(p, r)) == Then(Concat(acc, p), r)
  {
    if r.Some? {
      assert acc.direct + (p.direct + r.value.direct) == (acc.direct + p.direct) + r.value.direct;
      assert acc.players + (p.players + r.value.players) == (acc.players + p.players) + r.value.players;
    }
  }

  /** The planning loop of `run`: `direct_downloads` and `ytdlp_jobs`. */
  method PlanVideos(videos: seq<Json>) returns (r: Option<Plan>)
    ensures r == VideosPlan(videos)
  {
    var direct: seq<Job> := [];
    var players: seq<PlayerJob> := [];
    assert videos[0..] == videos;
    var all := VideosPlan(videos);
    if all.Some? {
      assert [] + all.value.direct == all.value.direct && [] + all.value.players == all.value.players;
    }
    for i := 0 to |videos|
      invariant VideosPlan(videos) == Then(Plan(direct, players), VideosPlan(videos[i..]))
    {
      VideosPlanFrom(videos, i);
      var step := VideoStep(videos[i]);
      if step.None? {
        return None;
      }
      var add := PlanOf(step.value);
      ThenStep(Plan(direct, players), add, VideosPlan(videos[i + 1..]));
      direct, players := direct + add.direct, players + add.players;
    }
    assert videos[|videos|..] == [];
    assert direct + [] == direct && players + [] == players;
    return Some(Plan(direct, players));
  }

  /**
   * What `download_video` does with a started job: yt-dlp leaves a file at
   * the target, returns without one, or raises (its `download` is called
   * without a `try`, so a `DownloadError` leaves `run`). yt-dlp itself is
   * outside the model, so each job's outcome is a parameter.
   */
  datatype PlayerOutcome = Landed | NoFile | Failed

  /** The files present once a started yt-dlp job has had its turn without raising. */
  function AfterPlayer(present: set<Path>, job: PlayerJob, outcome: PlayerJob -> PlayerOutcome): set<Path> {
    var t := VideoTarget(job.id);
    if t !in present && outcome(job) == Landed then present + {t} else present
  }

  /**
   * The yt-dlp jobs started, in order: each job is checked against the files
   * present at its turn, which include those left by the jobs before it, and
   * a job whose download raises is the last one started.
   */
  function FreshPlayers(jobs: seq<PlayerJob>, present: set<Path>, outcome: PlayerJob -> PlayerOutcome): (r: seq<PlayerJob>)
    ensures |r| <= |jobs|
    ensures forall j :: j in r ==> j in jobs && VideoTarget(j.id) !in present
    ensures forall i :: 0 <= i < |r| - 1 ==> outcome(r[i]) != Failed
  {
    if jobs == [] then []
    else
      var rest := FreshPlayers(jobs[1..], AfterPlayer(present, jobs[0], outcome), outcome);
      assert forall j :: j in jobs <==> j == jobs[0] || j in jobs[1..];
      if VideoTarget(jobs[0].id) in present then rest
      else if outcome(jobs[0]) == Failed then [jobs[0]]
      else [jobs[0]] + rest
  }

  /** The yt-dlp loop raises: one of the jobs it started raised. */
  predicate PlayersRaise(jobs: seq<PlayerJob>, present: set<Path>, outcome: PlayerJob -> PlayerOutcome) {
    exists j :: j in FreshPlayers(jobs, present, outcome) && outcome(j) == Failed
  }

  /**
   * The job at `k` passes the `target.exists()` test if the loop gets to it:
   * its file was not present before the loop, and no earlier job for the same
   * file left one.
   */
  predicate Admitted(jobs: seq<PlayerJob>, present: set<Path>, outcome: PlayerJob -> PlayerOutcome, k: nat)
    requires k < |jobs|
  {
    && VideoTarget(jobs[k].id) !in present
    && forall i :: 0 <= i < k && VideoTarget(jobs[i].id) == VideoTarget(jobs[k].id) ==> outcome(jobs[i]) != Landed
  }

  /** The job at `k` is started: it is admitted, and no earlier admitted job raised. */
  predicate StartsAt(jobs: seq<PlayerJob>, present: set<Path>, outcome: PlayerJob -> PlayerOutcome, k: nat)
    requires k < |jobs|
  {
    && Admitted(jobs, present, outcome, k)
    && forall i :: 0 <= i < k && Admitted(jobs, present, outcome, i) ==> outcome(jobs[i]) != Failed
  }

  /** Dropping the first job: `Admitted` against the files present after its turn. */
  lemma AdmittedShift(jobs: seq<PlayerJob>, present: set<Path>, outcome: PlayerJob -> PlayerOutcome, k: nat)
    requires 1 <= k < |jobs|
    ensures Admitted(jobs, present, outcome, k) == Admitted(jobs[1..], AfterPlayer(present, jobs[0], outcome), outcome, k - 1)
  {
    var tail := jobs[1..];
    assert forall i :: 1 <= i < k ==> tail[i - 1] == jobs[i];
    if Admitted(tail, AfterPlayer(present, jobs[0], outcome), outcome, k - 1) {
      forall i | 1 <= i < k && VideoTarget(jobs[i].id) == VideoTarget(jobs[k].id)
        ensures outcome(jobs[i]) != Landed
      {
        assert tail[i - 1] == jobs[i];
      }
    }
  }

  /** Dropping a first job that does not end the loop: `StartsAt` against the files present after its turn. */
  lemma StartsAtShift(jobs: seq<PlayerJob>, present: set<Path>, outcome: PlayerJob -> PlayerOutcome, k: nat)
    requires 1 <= k < |jobs|
    requires Admitted(jobs, present, outcome, 0) ==> outcome(jobs[0]) != Failed
    ensures StartsAt(jobs, present, outcome, k) == StartsAt(jobs[1..], AfterPlayer(present, jobs[0], outcome), outcome, k - 1)
  {
    var tail := jobs[1..];
    var next := AfterPlayer(present, jobs[0], outcome);
    forall i | 1 <= i <= k {
      AdmittedShift(jobs, present, outcome, i);
    }
    if StartsAt(tail, next, outcome, k - 1) {
      forall i | 0 <= i < k && Admitted(jobs, present, outcome, i)
        ensures outcome(jobs[i]) != Failed
      {
        if i > 0 {
          assert tail[i - 1] == jobs[i];
        }
      }
    }
    if StartsAt(jobs, present, outcome, k) {
      forall i | 0 <= i < k - 1 && Admitted(tail, next, outcome, i)
        ensures outcome(tail[i]) != Failed
      {
        assert tail[i] == jobs[i + 1];
      }
    }
  }

  /**
   * A job is among those started exactly when it sits at a position where
   * `StartsAt` holds: its file was missing before the loop, no earlier job
   * for the same file left it, and no earlier started job raised. The loop
   * raises exactly when a job it starts raises.
   */
  lemma FreshPlayersExact(jobs: seq<PlayerJob>, present: set<Path>, outcome: PlayerJob -> PlayerOutcome)
    ensures forall j :: j in FreshPlayers(jobs, present, outcome) <==>
      exists k :: 0 <= k < |jobs| && jobs[k] == j && StartsAt(jobs, present, outcome, k)
    ensures PlayersRaise(jobs, present, outcome) <==>
      exists k :: 0 <= k < |jobs| && StartsAt(jobs, present, outcome, k) && outcome(jobs[k]) == Failed
  {
    FreshPlayersMembers(jobs, present, outcome);
  }

  /** The first half of `FreshPlayersExact`, by induction on the jobs. */
  lemma {:induction false} FreshPlayersMembers(jobs: seq<PlayerJob>, present: set<Path>, outcome: PlayerJob -> PlayerOutcome)
    ensures forall j :: j in FreshPlayers(jobs, present, outcome) <==>
      exists k :: 0 <= k < |jobs| && jobs[k] == j && StartsAt(jobs, present, outcome, k)
    decreases |jobs|
  {
    if jobs != [] {
      var next := AfterPlayer(present, jobs[0], outcome);
      var tail := jobs[1..];
      if Admitted(jobs, present, outcome, 0) && outcome(jobs[0]) == Failed {
        assert StartsAt(jobs, present, outcome, 0);
        forall j | j in FreshPlayers(jobs, present, outcome)
          ensures exists k :: 0 <= k < |jobs| && jobs[k] == j && StartsAt(jobs, present, outcome, k)
        {
          assert jobs[0] == j;
        }
      } else {
        FreshPlayersMembers(tail, next, outcome);
        forall k | 1 <= k < |jobs| {
          StartsAtShift(jobs, present, outcome, k);
        }
        forall j | j in FreshPlayers(jobs, present, outcome)
          ensures exists k :: 0 <= k < |jobs| && jobs[k] == j && StartsAt(jobs, present, outcome, k)
        {
          if j !in FreshPlayers(tail, next, outcome) {
            assert StartsAt(jobs, present, outcome, 0);
          } else {
            var k :| 0 <= k < |tail| && tail[k] == j && StartsAt(tail, next, outcome, k);
            assert jobs[k + 1] == j;
          }
        }
        forall j, k | 0 <= k < |jobs| && jobs[k] == j && StartsAt(jobs, present, outcome, k)
          ensures j in FreshPlayers(jobs, present, outcome)
        {
          if k > 0 {
            assert tail[k - 1] == j;
          }
        }
      }
    }
  }

  /**
   * When no two jobs are for the same video, a job is started exactly when
   * its file is not present and no job before it with a missing file raised.
   */
  lemma FreshPlayersDistinct(jobs: seq<PlayerJob>, present: set<Path>, outcome: PlayerJob -> PlayerOutcome)
    requires forall a, b :: 0 <= a < b < |jobs| ==> jobs[a].id != jobs[b].id
    ensures forall k :: 0 <= k < |jobs| ==>
      (jobs[k] in FreshPlayers(jobs, present, outcome) <==>
         && VideoTarget(jobs[k].id) !in present
         && forall i :: 0 <= i < k && VideoTarget(jobs[i].id) !in present ==> outcome(jobs[i]) != Failed)
  {
    FreshPlayersExact(jobs, present, outcome);
    forall k | 0 <= k < |jobs|
      ensures Admitted(jobs, present, outcome, k) <==> VideoTarget(jobs[k].id) !in present
    {
      forall i | 0 <= i < k
        ensures VideoTarget(jobs[i].id) != VideoTarget(jobs[k].id)
      {
        VideoTargetsDistinct(jobs[i].id, jobs[k].id);
      }
    }
    forall k | 0 <= k < |jobs| && jobs[k] in FreshPlayers(jobs, present, outcome)
      ensures StartsAt(jobs, present, outcome, k)
    {
      var k' :| 0 <= k' < |jobs| && jobs[k'] == jobs[k] && StartsAt(jobs, present, outcome, k');
      if k' != k {
        assert false;
      }
    }
  }

  /**
   * In a loop that does not raise, every admitted job is started, and its
   * download does not raise.
   */
  lemma {:induction false} AdmittedStarts(jobs: seq<PlayerJob>, present: set<Path>, outcome: PlayerJob -> PlayerOutcome, k: nat)
    requires !PlayersRaise(jobs, present, outcome)
    requires k < |jobs| && Admitted(jobs, present, outcome, k)
    ensures StartsAt(jobs, present, outcome, k) && outcome(jobs[k]) != Failed
    decreases k
  {
    FreshPlayersExact(jobs, present, outcome);
    forall i | 0 <= i < k && Admitted(jobs, present, outcome, i)
      ensures outcome(jobs[i]) != Failed
    {
      AdmittedStarts(jobs, present, outcome, i);
    }
  }

  /**
   * The sequential yt-dlp loop: `if target.exists(): continue`, else
   * `download_video`, which leaves the file, returns without one or raises
   * and ends the loop, as `outcome` says.
   */
  method DispatchPlayers(jobs: seq<PlayerJob>, present: set<Path>, outcome: PlayerJob -> PlayerOutcome)
    returns (tasks: seq<PlayerJob>, raised: bool)
    ensures tasks == FreshPlayers(jobs, present, outcome)
    ensures raised == PlayersRaise(jobs, present, outcome)
  {
    tasks, raised := [], false;
    var files := present;
    assert jobs[0..] == jobs;
    for i := 0 to |jobs|
      invariant FreshPlayers(jobs, present, outcome) == tasks + FreshPlayers(jobs[i..], files, outcome)
      invariant forall j :: j in tasks ==> outcome(j) != Failed
    {
      DispatchStep(jobs, present, outcome, tasks, files, i);
      var target := VideoTarget(jobs[i].id);
      if target !in files {
        if outcome(jobs[i]) == Failed {
          tasks, raised := tasks + [jobs[i]], true;
          assert jobs[i] in tasks;
          return;
        }
        tasks := tasks + [jobs[i]];
        if outcome(jobs[i]) == Landed {
          files := files + {target};
        }
      }
    }
    assert jobs[|jobs|..] == [];
    assert tasks + [] == tasks;
  }

  /** One turn of the yt-dlp loop, as `DispatchPlayers` takes it. */
  lemma DispatchStep(jobs: seq<PlayerJob>, present: set<Path>, outcome: PlayerJob -> PlayerOutcome,
                     tasks: seq<PlayerJob>, files: set<Path>, i: nat)
    requires i < |jobs|
    requires FreshPlayers(jobs, present, outcome) == tasks + FreshPlayers(jobs[i..], files, outcome)
    ensures VideoTarget(jobs[i].id) in files ==>
      FreshPlayers(jobs, present, outcome) == tasks + FreshPlayers(jobs[i + 1..], files, outcome)
    ensures VideoTarget(jobs[i].id) !in files && outcome(jobs[i]) == Failed ==>
      FreshPlayers(jobs, present, outcome) == tasks + [jobs[i]]
    ensures VideoTarget(jobs[i].id) !in files && outcome(jobs[i]) != Failed ==>
      FreshPlayers(jobs, present, outcome) ==
        (tasks + [jobs[i]]) + FreshPlayers(jobs[i + 1..], AfterPlayer(files, jobs[i], outcome), outcome)
  {
    var job := jobs[i];
    FreshPlayersAt(jobs, files, outcome, i);
    if VideoTarget(job.id) !in files && outcome(job) != Failed {
      var rest := FreshPlayers(jobs[i + 1..], AfterPlayer(files, job, outcome), outcome);
      assert FreshPlayers(jobs[i..], files, outcome) == [job] + rest;
      assert tasks + ([job] + rest) == (tasks + [job]) + rest;
    }
  }

  /**
   * `FreshPlayers` from index `i` on: the job at `i` is started exactly when
   * its file is not present; a job that raises is the last one, and otherwise
   * the rest are checked against the files present after its turn.
   */
  lemma FreshPlayersAt(jobs: seq<PlayerJob>, present: set<Path>, outcome: PlayerJob -> PlayerOutcome, i: nat)
    requires i < |jobs|
    ensures FreshPlayers(jobs[i..], present, outcome) ==
      var rest := FreshPlayers(jobs[i + 1..], AfterPlayer(present, jobs[i], outcome), outcome);
      if VideoTarget(jobs[i].id) in present then rest
      else if outcome(jobs[i]) == Failed then [jobs[i]]
      else [jobs[i]] + rest
  {
    assert jobs[i..][1..] == jobs[i + 1..];
  }

  /**
   * The files the direct downloads leave: the target of every download
   * started whose reply was 200 (`_download_direct` writes on 200 only).
   */
  function DirectWritten(started: seq<Job>, served: Job -> bool): set<Path> {
    set j | j in started && served(j) :: j.target
  }

  /** A finished run: the videos fetched, the plan, the downloads started and the state after the offset updates. */
  datatype VideosRun = VideosRun(videos: seq<Json>, plan: Plan, direct: seq<Job>, players: seq<PlayerJob>,
                                 sections: seq<(string, Json)>)

  /** The end of a run: its result (`None` when it raised) and the offsets persisted on the way. */
  datatype VideosOutcome = VideosOutcome(result: Option<VideosRun>, persisted: seq<int>)

  /** `_fetch_all_videos`: the resumable loop over "videos", 100 per page, capped at `max_items`. */
  function FetchVideos(api: Api, sections: seq<(string, Json)>, maxItems: Option<int>): Resumed {
    FetchResumed(api, sections, "videos", "offset", PageSize, maxItems)
  }

  /**
   * `run`: fetch, plan, then start the direct downloads whose file does not
   * exist, then the yt-dlp jobs whose file does not exist once those are done;
   * a yt-dlp download that raises ends the run. `served` says which direct
   * downloads get a 200 reply and `outcome` what each yt-dlp job does; both
   * are the network's answer.
   */
  function VideosRunOf(api: Api, sections: seq<(string, Json)>, maxItems: Option<int>, existing: set<Path>,
                       served: Job -> bool, outcome: PlayerJob -> PlayerOutcome): VideosOutcome {
    var fetched := FetchVideos(api, sections, maxItems);
    match fetched.result
    case None => VideosOutcome(None, fetched.persisted)
    case Some(progress) =>
      match VideosPlan(progress.items)
      case None => VideosOutcome(None, fetched.persisted)
      case Some(plan) =>
        var direct := Pending(plan.direct, existing);
        var present := existing + DirectWritten(direct, served);
        if PlayersRaise(plan.players, present, outcome) then VideosOutcome(None, fetched.persisted)
        else
        var players := FreshPlayers(plan.players, present, outcome);
        VideosOutcome(Some(VideosRun(progress.items, plan, direct, players, progress.sections)), fetched.persisted)
  }

  /** `run`, as the downloader executes it: the paging loop, the planning loop, then the two download loops. */
  method Run(api: Api, sections: seq<(string, Json)>, maxItems: Option<int>, existing: set<Path>,
             served: Job -> bool, outcome: PlayerJob -> PlayerOutcome)
    returns (result: Option<VideosRun>, persisted: seq<int>)
    ensures VideosOutcome(result, persisted) == VideosRunOf(api, sections, maxItems, existing, served, outcome)
  {
    var progress;
    progress, persisted := FetchResumedAll(api, sections, "videos", "offset", PageSize, maxItems);
    if progress.None? {
      return None, persisted;
    }
    var plan := PlanVideos(progress.value.items);
    if plan.None? {
      return None, persisted;
    }
    var direct := DispatchPending(plan.value.direct, existing);
    var present := existing + DirectWritten(direct, served);
    var players, raised := DispatchPlayers(plan.value.players, present, outcome);
    if raised {
      return None, persisted;
    }
    result := Some(VideosRun(progress.value.items, plan.value, direct, players, progress.value.sections));
  }

  /**
   * With `max_items = m`, a run handles at most `m` videos and starts at
   * most one download per video. Exactly the planned direct downloads whose
   * file did not exist are started. In a run that finishes, no yt-dlp job
   * raised, and a yt-dlp job is started exactly when its file did not exist,
   * no direct download wrote it, and no earlier yt-dlp job for the same file
   * left it.
   */
  lemma RunBounds(api: Api, sections: seq<(string, Json)>, m: nat, existing: set<Path>,
                  served: Job -> bool, outcome: PlayerJob -> PlayerOutcome)
    ensures var r := VideosRunOf(api, sections, Some(m), existing, served, outcome).result;
      r.Some? ==>
        var present := existing + DirectWritten(r.value.direct, served);
        && |r.value.direct| + |r.value.players| <= |r.value.videos| <= m
        && (forall j :: j in r.value.direct <==> j in r.value.plan.direct && j.target !in existing)
        && (forall j :: j in r.value.players ==>
              && VideoTarget(j.id) !in existing
              && (forall d :: d in r.value.direct && served(d) ==> d.target != VideoTarget(j.id)))
        && (forall j :: j in r.value.players <==>
              exists k :: 0 <= k < |r.value.plan.players| && r.value.plan.players[k] == j
                          && Admitted(r.value.plan.players, present, outcome, k))
        && (forall j :: j in r.value.players ==> outcome(j) != Failed)
  {
    FetchResumedCapped(api, sections, "videos", "offset", PageSize, m);
    var r := VideosRunOf(api, sections, Some(m), existing, served, outcome).result;
    if r.Some? {
      var present := existing + DirectWritten(r.value.direct, served);
      var jobs := r.value.plan.players;
      FreshPlayersExact(jobs, present, outcome);
      forall k | 0 <= k < |jobs| && Admitted(jobs, present, outcome, k)
        ensures StartsAt(jobs, present, outcome, k)
      {
        AdmittedStarts(jobs, present, outcome, k);
      }
      forall j, d | j in r.value.players && d in r.value.direct && served(d)
        ensures d.target != VideoTarget(j.id)
      {
        assert d.target in present;
      }
    }
  }

  /**
   * A run keeps what the fetch loop collected and stored, and raises only
   * when the fetch raises or a video does.
   */
  lemma RunFetches(api: Api, sections: seq<(string, Json)>, maxItems: Option<int>, existing: set<Path>,
                   served: Job -> bool, outcome: PlayerJob -> PlayerOutcome)
    ensures var out := VideosRunOf(api, sections, maxItems, existing, served, outcome);
      var fetched := FetchVideos(api, sections, maxItems);
      && out.persisted == fetched.persisted
      && (fetched.result.Some? && VideosPlan(fetched.result.value.items).Some? ==>
            var plan := VideosPlan(fetched.result.value.items).value;
            var direct := Pending(plan.direct, existing);
            (out.result.Some? <==> !PlayersRaise(plan.players, existing + DirectWritten(direct, served), outcome)))
      && (out.result.Some? ==> fetched.result.Some? && VideosPlan(fetched.result.value.items).Some?)
      && (out.result.Some? ==>
            && out.result.value.videos == fetched.result.value.items
            && out.result.value.sections == fetched.result.value.sections
            && Some(out.result.value.plan) == VideosPlan(out.result.value.videos))
  {
  }
}
