/**
 * What the downloaders share once an item has been read: a download job
 * (a URL and the file it goes to), the outcome of reading one item, and
 * `_download_direct`, the single-file fetch of the documents, videos and
 * stories downloaders.
 *
 * The HTTP exchange is abstract: `response` is what the server answers to
 * a GET of the job's URL.
 */
module Downloads {
  import opened Wrappers
  import opened Files

  /** Fetch `url` into `target`. */
  datatype Job = Job(url: string, target: Path)

  /** What a job-building loop does with one item. */
  datatype ItemStep =
    | Skipped           // no usable URL, or the target exists already
    | Raised            // reading the item raises, which ends the run
    | Scheduled(job: Job)

  /** `acc` followed by the jobs still to come, when building them does not raise. */
  function Prepend(acc: seq<Job>, r: Option<seq<Job>>): Option<seq<Job>> {
    match r
    case None => None
    case Some(jobs) => Some(acc + jobs)
  }

  /** No jobs so far: the jobs to come unchanged. */
  lemma PrependEmpty(r: Option<seq<Job>>)
    ensures Prepend([], r) == r
  {
    if r.Some? {
      assert [] + r.value == r.value;
    }
  }

  /** Moving one job from the jobs to come onto the jobs so far. */
  lemma PrependStep(acc: seq<Job>, job: Job, r: Option<seq<Job>>)
    ensures Prepend(acc, Prepend([job], r)) == Prepend(acc + [job], r)
  {
    if r.Some? {
      assert acc + ([job] + r.value) == (acc + [job]) + r.value;
    }
  }

  /** Jobs that fetch a non-empty URL into a file that did not exist when the run started. */
  predicate FreshJobs(jobs: seq<Job>, existing: set<Path>) {
    forall k :: 0 <= k < |jobs| ==> jobs[k].target !in existing && jobs[k].url != ""
  }

  /** Fresh jobs after fresh jobs are fresh. */
  lemma FreshJobsAppend(jobs: seq<Job>, more: seq<Job>, existing: set<Path>)
    requires FreshJobs(jobs, existing)
    requires forall k :: 0 <= k < |more| ==> more[k].target !in existing && more[k].url != ""
    ensures FreshJobs(jobs + more, existing)
  {
    var all := jobs + more;
    forall k | 0 <= k < |all|
      ensures all[k].target !in existing && all[k].url != ""
    {
      if k >= |jobs| {
        assert all[k] == more[k - |jobs|];
      }
    }
  }

  /** A fresh job in front of fresh jobs keeps them fresh. */
  lemma FreshJobsCons(job: Job, rest: seq<Job>, existing: set<Path>)
    requires job.target !in existing && job.url != "" && FreshJobs(rest, existing)
    ensures FreshJobs([job] + rest, existing)
  {
    var jobs := [job] + rest;
    forall k | 0 <= k < |jobs|
      ensures jobs[k].target !in existing && jobs[k].url != ""
    {
      if k > 0 {
        assert jobs[k] == rest[k - 1];
      }
    }
  }

  /** The jobs whose file does not exist yet, in order: those a download loop with `if target.exists(): continue` starts. */
  function Pending(jobs: seq<Job>, existing: set<Path>): (r: seq<Job>)
    ensures |r| <= |jobs|
    ensures forall j :: j in r <==> j in jobs && j.target !in existing
  {
    if jobs == [] then []
    else
      var rest := Pending(jobs[1..], existing);
      assert forall j :: j in jobs <==> j == jobs[0] || j in jobs[1..];
      if jobs[0].target in existing then rest else [jobs[0]] + rest
  }

  /** The download loop: `if target.exists(): continue`, else start the download. */
  method DispatchPending(jobs: seq<Job>, existing: set<Path>) returns (tasks: seq<Job>)
    ensures tasks == Pending(jobs, existing)
  {
    tasks := [];
    assert jobs[0..] == jobs;
    for i := 0 to |jobs|
      invariant Pending(jobs, existing) == tasks + Pending(jobs[i..], existing)
    {
      PendingAt(jobs, existing, i);
      var rest := Pending(jobs[i + 1..], existing);
      if jobs[i].target !in existing {
        assert tasks + ([jobs[i]] + rest) == (tasks + [jobs[i]]) + rest;
        tasks := tasks + [jobs[i]];
      }
    }
    assert jobs[|jobs|..] == [];
    assert tasks + [] == tasks;
  }

  /** `Pending` from index `i` on: the job at `i` is kept exactly when its target does not exist. */
  lemma PendingAt(jobs: seq<Job>, existing: set<Path>, i: nat)
    requires i < |jobs|
    ensures Pending(jobs[i..], existing) ==
      if jobs[i].target in existing then Pending(jobs[i + 1..], existing)
      else [jobs[i]] + Pending(jobs[i + 1..], existing)
  {
    assert jobs[i..][1..] == jobs[i + 1..];
  }

  /** The server's answer: the HTTP status and the body. */
  datatype Response = Response(status: int, body: seq<byte>)

  /** How one direct download ended. */
  datatype Download =
    | AlreadyThere              // the target existed: no request was made
    | NotOk(status: int)        // the server answered with another status than 200: nothing written
    | Saved                     // the body is now the target's content
    | SaveFailed(error: FsError) // the atomic write raised

  /**
   * `_download_direct(session, url, target)`: nothing happens when the
   * target exists; otherwise the body is written atomically, and only when
   * the status is 200.
   */
  method DownloadDirect(fs: FileSystem, target: Path, response: Response) returns (d: Download)
    modifies fs
    ensures old(fs.Exists(target)) ==> d == AlreadyThere
    ensures old(fs.Exists(target)) || response.status != 200 ==> fs.files == old(fs.files) && fs.dirs == old(fs.dirs)
    ensures !old(fs.Exists(target)) && response.status != 200 ==> d == NotOk(response.status)
    ensures !old(fs.Exists(target)) && response.status == 200 ==>
      (d == Saved <==> old(AtomicWriteSucceeds(fs, target))) && (d.Saved? || d.SaveFailed?)
    ensures d == Saved ==> fs.files == (old(fs.files) - {TmpPath(target)})[target := response.body]
  {
    if fs.Exists(target) {
      return AlreadyThere;
    }
    if response.status != 200 {
      return NotOk(response.status);
    }
    var written := AtomicWriteBytes(fs, target, response.body);
    if written.Err? {
      return SaveFailed(written.error);
    }
    return Saved;
  }
}
