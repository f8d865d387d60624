/**
 * `DocumentsDownloader`: the group's documents are paged from the
 * "documents" section's `offset`, 200 at a time and at most `max_items`;
 * every document with a URL whose file "{id}_{title}.{ext}" does not exist
 * yet becomes a download job in `documents/files`.
 *
 * As for the photos, the state store is its in-memory state and the files
 * that exist are a snapshot `existing` taken before the run.
 */
module Documents {
  import opened Wrappers
  import opened Text
  import opened JsonValues
  import opened Files
  import opened Paging
  import opened StateStore
  import opened Downloads
  import opened Resumable
  import Naming

  const PageSize: nat := 200

  /** The characters `_sanitize_filename` replaces with a space; '.' is not one of them. */
  const FileChars: seq<char> := ['/', '\\', '|', ':', '*', '?', '"', '<', '>']

  /** `_sanitize_filename`: none of `FileChars` left, no edge whitespace, never longer. */
  function SanitizeFilename(name: string): (r: string)
    ensures forall i :: 0 <= i < |r| ==> r[i] !in FileChars
    ensures Trimmed(r) && |r| <= |name|
  {
    Naming.SanitizeClean(name, FileChars);
    Naming.Sanitize(name, FileChars)
  }

  /** A name that is already clean, dots included, is kept as it is. */
  lemma SanitizeFilenameKeeps(name: string)
    requires Trimmed(name) && forall i :: 0 <= i < |name| ==> name[i] !in FileChars
    ensures SanitizeFilename(name) == name
  {
    Naming.SanitizeKeeps(name, FileChars);
  }

  /** Sanitising twice is sanitising once. */
  lemma SanitizeFilenameIdempotent(name: string)
    ensures SanitizeFilename(SanitizeFilename(name)) == SanitizeFilename(name)
  {
    Naming.SanitizeIdempotent(name, FileChars);
  }

  /** `_ext_from_doc(item)`: the item's `ext` lower-cased when it is a string of 1 to 8 characters, else "bin"; `None` when `item` is not a dict. */
  function ExtFromDoc(item: Json): (r: Option<string>)
    ensures r.Some? <==> item.Obj?
    ensures r.Some? ==> r.value == "bin" || (1 <= |r.value| <= 8 && Naming.NoUpper(r.value))
    ensures item.Obj? && Field(item, "ext").Str? && 1 <= |Field(item, "ext").s| <= 8 ==> r == Some(Lower(Field(item, "ext").s))
    ensures item.Obj? && !(Field(item, "ext").Str? && 1 <= |Field(item, "ext").s| <= 8) ==> r == Some("bin")
  {
    match Get(item, "ext", Null)
    case None => None
    case Some(ext) =>
      if ext.Str? && 1 <= |ext.s| <= 8 then
        Some(Lower(ext.s))
      else Some("bin")
  }

  /** `f"{doc_id}_{title}.{ext}"`. */
  function DocFileName(docId: int, title: string, ext: string): string {
    IntToString(docId) + "_" + (title + "." + ext)
  }

  /** The files directory, relative to the group directory. */
  const FilesDir: Path := ["documents", "files"]

  /**
   * Where a document goes: `documents/files/{id}_{title}.{ext}`, with the
   * title sanitised (default "document"); `None` when `int(d["id"])` raises.
   */
  function DocTarget(d: Json): (r: Option<Path>)
    requires d.Obj?
    ensures r.Some? <==> ToInt(Field(d, "id")).Some?
    ensures r.Some? ==> |r.value| == 3 && r.value[..2] == FilesDir
  {
    match ToInt(Field(d, "id"))
    case None => None
    case Some(docId) =>
      var title := SanitizeFilename(ToStr(Get(d, "title", Str("document")).value));
      Some(FilesDir + [DocFileName(docId, title, ExtFromDoc(d).value)])
  }

  /** Two documents with different ids never share a file, whatever their titles and extensions. */
  lemma DocTargetsDistinct(d1: Json, d2: Json)
    requires d1.Obj? && d2.Obj? && DocTarget(d1).Some? && DocTarget(d2).Some?
    requires ToInt(Field(d1, "id")) != ToInt(Field(d2, "id"))
    ensures DocTarget(d1) != DocTarget(d2)
  {
    var id1, id2 := ToInt(Field(d1, "id")).value, ToInt(Field(d2, "id")).value;
    var rest1 := SanitizeFilename(ToStr(Get(d1, "title", Str("document")).value)) + "." + ExtFromDoc(d1).value;
    var rest2 := SanitizeFilename(ToStr(Get(d2, "title", Str("document")).value)) + "." + ExtFromDoc(d2).value;
    if DocTarget(d1) == DocTarget(d2) {
      assert DocTarget(d1).value[2] == DocFileName(id1, SanitizeFilename(ToStr(Get(d1, "title", Str("document")).value)), ExtFromDoc(d1).value);
      IntPrefixUnique(id1, id2, '_', rest1, rest2);
    }
  }

  /**
   * One document: skipped when its URL is not a non-empty string or its
   * target exists; otherwise one job for that URL into its target.
   */
  function DocStep(d: Json, existing: set<Path>): (r: ItemStep)
    ensures !d.Obj? ==> r == Raised
    ensures d.Obj? && !IsNonEmptyStr(Field(d, "url")) ==> r == Skipped
    ensures d.Obj? && IsNonEmptyStr(Field(d, "url")) && DocTarget(d).None? ==> r == Raised
    ensures d.Obj? && IsNonEmptyStr(Field(d, "url")) && DocTarget(d).Some? && DocTarget(d).value !in existing ==> r.Scheduled?
    ensures r.Scheduled? ==>
      && d.Obj? && Field(d, "url") == Str(r.job.url) && DocTarget(d) == Some(r.job.target)
      && r.job.target !in existing && r.job.url != ""
  {
    match Get(d, "url", Null)
    case None => Raised
    case Some(url) =>
      if !IsNonEmptyStr(url) then Skipped
      else
        match DocTarget(d)
        case None => Raised
        case Some(target) => if target in existing then Skipped else Scheduled(Job(url.s, target))
  }

  /** The jobs of the fetched documents, in order; `None` when a document raises. */
  function DocJobs(docs: seq<Json>, existing: set<Path>): (r: Option<seq<Job>>)
    ensures r.Some? ==> |r.value| <= |docs| && FreshJobs(r.value, existing)
  {
    if docs == [] then Some([])
    else
      match DocStep(docs[0], existing)
      case Raised => None
      case Skipped => DocJobs(docs[1..], existing)
      case Scheduled(job) =>
        match DocJobs(docs[1..], existing)
        case None => None
        case Some(rest) =>
          FreshJobsCons(job, rest, existing);
          Some([job] + rest)
  }

  /** `DocJobs` one document at a time, from document `i` on. */
  lemma DocJobsFrom(docs: seq<Json>, i: nat, existing: set<Path>)
    requires i < |docs|
    ensures DocJobs(docs[i..], existing) ==
      match DocStep(docs[i], existing)
      case Raised => None
      case Skipped => DocJobs(docs[i + 1..], existing)
      case Scheduled(job) => Prepend([job], DocJobs(docs[i + 1..], existing))
  {
    assert docs[i..][1..] == docs[i + 1..];
  }

  /** The job-building loop of `run`. */
  method CollectDocJobs(docs: seq<Json>, existing: set<Path>) returns (r: Option<seq<Job>>)
    ensures r == DocJobs(docs, existing)
  {
    var tasks: seq<Job> := [];
    assert docs[0..] == docs;
    var all := DocJobs(docs, existing);
    if all.Some? {
      assert [] + all.value == all.value;
    }
    for i := 0 to |docs|
      invariant DocJobs(docs, existing) == Prepend(tasks, DocJobs(docs[i..], existing))
    {
      DocJobsFrom(docs, i, existing);
      var step := DocStep(docs[i], existing);
      if step.Raised? {
        return None;
      }
      if step.Scheduled? {
        PrependStep(tasks, step.job, DocJobs(docs[i + 1..], existing));
        tasks := tasks + [step.job];
      }
    }
    assert docs[|docs|..] == [];
    assert tasks + [] == tasks;
    return Some(tasks);
  }

  /** The summary `run` returns. */
  function Summary(docs: seq<Json>, jobs: seq<Job>): Json {
    Obj([("type", Str("documents")), ("items", Int(|docs|)), ("file_download_attempts", Int(|jobs|)), ("failures", Int(0))])
  }

  /** A finished run: the documents fetched, the jobs scheduled, and the state after the offset updates. */
  datatype DocsRun = DocsRun(docs: seq<Json>, jobs: seq<Job>, sections: seq<(string, Json)>)

  /** The end of a run: its result (`None` when it raised) and the offsets persisted on the way. */
  datatype DocsOutcome = DocsOutcome(result: Option<DocsRun>, persisted: seq<int>)

  /** `_fetch_all_docs`: the resumable loop over "documents", 200 per page, capped at `max_items`. */
  function FetchDocs(api: Api, sections: seq<(string, Json)>, maxItems: Option<int>): Resumed {
    FetchResumed(api, sections, "documents", "offset", PageSize, maxItems)
  }

  /** `run`: fetch the documents, then build a job for each one that has a URL and no file yet. */
  function DocumentsRun(api: Api, sections: seq<(string, Json)>, maxItems: Option<int>, existing: set<Path>): DocsOutcome {
    var fetched := FetchDocs(api, sections, maxItems);
    match fetched.result
    case None => DocsOutcome(None, fetched.persisted)
    case Some(progress) =>
      match DocJobs(progress.items, existing)
      case None => DocsOutcome(None, fetched.persisted)
      case Some(jobs) => DocsOutcome(Some(DocsRun(progress.items, jobs, progress.sections)), fetched.persisted)
  }

  /** `run`, as the downloader executes it: the paging loop, then the job loop. */
  method Run(api: Api, sections: seq<(string, Json)>, maxItems: Option<int>, existing: set<Path>)
    returns (result: Option<DocsRun>, persisted: seq<int>)
    ensures DocsOutcome(result, persisted) == DocumentsRun(api, sections, maxItems, existing)
  {
    var progress;
    progress, persisted := FetchResumedAll(api, sections, "documents", "offset", PageSize, maxItems);
    if progress.None? {
      return None, persisted;
    }
    var jobs := CollectDocJobs(progress.value.items, existing);
    if jobs.None? {
      return None, persisted;
    }
    result := Some(DocsRun(progress.value.items, jobs.value, progress.value.sections));
  }

  /**
   * A run keeps what the fetch loop collected and stored, and raises only
   * when the fetch raises or a document does: its documents and state are
   * the loop's, and its jobs are those of `DocJobs`.
   */
  lemma RunFetches(api: Api, sections: seq<(string, Json)>, maxItems: Option<int>, existing: set<Path>)
    ensures var out := DocumentsRun(api, sections, maxItems, existing);
      var fetched := FetchDocs(api, sections, maxItems);
      && out.persisted == fetched.persisted
      && (out.result.Some? <==> fetched.result.Some? && DocJobs(fetched.result.value.items, existing).Some?)
      && (out.result.Some? ==>
            && out.result.value.docs == fetched.result.value.items
            && out.result.value.sections == fetched.result.value.sections
            && Some(out.result.value.jobs) == DocJobs(out.result.value.docs, existing))
  {
  }

  /**
   * With `max_items = m`, a run handles at most `m` documents and schedules
   * at most one job per document, each for a file that did not exist; the
   * summary counts exactly those.
   */
  lemma RunBounds(api: Api, sections: seq<(string, Json)>, m: nat, existing: set<Path>)
    ensures var r := DocumentsRun(api, sections, Some(m), existing).result;
      r.Some? ==>
        && |r.value.jobs| <= |r.value.docs| <= m
        && FreshJobs(r.value.jobs, existing)
        && Summary(r.value.docs, r.value.jobs) == Obj([("type", Str("documents")), ("items", Int(|r.value.docs|)),
                                                    ("file_download_attempts", Int(|r.value.jobs|)), ("failures", Int(0))])
  {
    FetchResumedCapped(api, sections, "documents", "offset", PageSize, m);
  }
}
