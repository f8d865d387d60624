/**
 * The resumable fetch loop of the documents and videos downloaders: read
 * `int(state.get(type).get("offset", 0))`, page from there, and after each
 * full page `update(type, {"offset": offset})`, so that an interrupted run
 * goes on where the last one stopped.
 */
module Resumable {
  import opened Wrappers
  import opened JsonValues
  import opened Paging
  import opened StateStore

  /** What a finished loop leaves: the items collected and the store's state after its updates. */
  datatype Progress = Progress(items: seq<Json>, sections: seq<(string, Json)>)

  /** The loop's end: its result (`None` when it raised) and the offsets it persisted. */
  datatype Resumed = Resumed(result: Option<Progress>, persisted: seq<int>)

  /** The loop over the `typeName` collection, `count` per page, capped at `cap`, resuming from the stored `key`. */
  function FetchResumed(api: Api, sections: seq<(string, Json)>, typeName: string, key: string, count: nat, cap: Option<int>): Resumed
    requires count > 0
  {
    match SectionOf(sections, typeName)
    case None => Resumed(None, [])
    case Some(section) =>
      match ResumeOffset(section, key)
      case None => Resumed(None, [])
      case Some(start) =>
        var fetched := Fetch(api, start, count, cap, []);
        match PersistOffsets(sections, typeName, key, fetched.persisted)
        case None => Resumed(None, fetched.persisted)
        case Some(s) => Resumed(Some(Progress(fetched.items, s)), fetched.persisted)
  }

  /** The loop as the downloader runs it: read the start, page, then apply the offset updates in order. */
  method FetchResumedAll(api: Api, sections: seq<(string, Json)>, typeName: string, key: string, count: nat, cap: Option<int>)
    returns (result: Option<Progress>, persisted: seq<int>)
    requires count > 0
    ensures Resumed(result, persisted) == FetchResumed(api, sections, typeName, key, count, cap)
  {
    var section := SectionOf(sections, typeName);
    if section.None? {
      return None, [];
    }
    var start := ResumeOffset(section.value, key);
    if start.None? {
      return None, [];
    }
    var items;
    items, persisted := FetchAll(api, start.value, count, cap);
    var s := PersistOffsets(sections, typeName, key, persisted);
    if s.None? {
      return None, persisted;
    }
    result := Some(Progress(items, s.value));
  }

  /** The loop raises exactly when the stored section is not a dict or its offset is not an integer; then nothing is persisted. */
  lemma FetchResumedRaises(api: Api, sections: seq<(string, Json)>, typeName: string, key: string, count: nat, cap: Option<int>)
    requires count > 0
    ensures var r := FetchResumed(api, sections, typeName, key, count, cap);
      && (r.result.None? <==> SectionOf(sections, typeName).None? || ResumeOffset(SectionOf(sections, typeName).value, key).None?)
      && (r.result.None? ==> r.persisted == [])
  {
    var section := SectionOf(sections, typeName);
    if section.Some? && ResumeOffset(section.value, key).Some? {
      var fetched := Fetch(api, ResumeOffset(section.value, key).value, count, cap, []);
      PersistOffsetsLast(sections, typeName, key, fetched.persisted);
    }
  }

  /**
   * Resuming: the loop starts at the stored offset, and the state it leaves
   * is the stored state after one `update` per persisted offset.
   */
  lemma FetchResumedFrom(api: Api, sections: seq<(string, Json)>, typeName: string, key: string, count: nat, cap: Option<int>)
    requires count > 0
    requires SectionOf(sections, typeName).Some?
    requires ResumeOffset(SectionOf(sections, typeName).value, key).Some?
    ensures var start := ResumeOffset(SectionOf(sections, typeName).value, key).value;
      var r := FetchResumed(api, sections, typeName, key, count, cap);
      && r.result.Some?
      && Fetch(api, start, count, cap, []) == Fetched(r.result.value.items, r.persisted)
      && PersistOffsets(sections, typeName, key, r.persisted) == Some(r.result.value.sections)
  {
    var start := ResumeOffset(SectionOf(sections, typeName).value, key).value;
    var fetched := Fetch(api, start, count, cap, []);
    PersistOffsetsLast(sections, typeName, key, fetched.persisted);
  }

  /**
   * After the loop the stored offset is the last one persisted (each one
   * page past the previous, after a full page), and no other section has
   * changed.
   */
  lemma FetchResumedStores(api: Api, sections: seq<(string, Json)>, typeName: string, key: string, count: nat, cap: Option<int>)
    requires count > 0
    requires SectionOf(sections, typeName).Some?
    requires ResumeOffset(SectionOf(sections, typeName).value, key).Some?
    ensures var r := FetchResumed(api, sections, typeName, key, count, cap);
      && r.result.Some?
      && SectionOf(r.result.value.sections, typeName).Some?
      && (r.persisted != [] ==>
            Lookup(SectionOf(r.result.value.sections, typeName).value, key) == Some(Int(r.persisted[|r.persisted| - 1])))
      && (r.persisted == [] ==> r.result.value.sections == sections)
      && forall other :: other != typeName ==> Lookup(r.result.value.sections, other) == Lookup(sections, other)
  {
    var r := FetchResumed(api, sections, typeName, key, count, cap);
    FetchResumedFrom(api, sections, typeName, key, count, cap);
    PersistOffsetsLast(sections, typeName, key, r.persisted);
  }

  /** With a cap `m`, the loop collects at most `m` items: the first `m` of the collection from its start. */
  lemma FetchResumedCapped(api: Api, sections: seq<(string, Json)>, typeName: string, key: string, count: nat, m: nat)
    requires count > 0
    ensures var r := FetchResumed(api, sections, typeName, key, count, Some(m));
      r.result.Some? ==>
        && |r.result.value.items| <= m
        && r.result.value.items == TakePy(Collected(api, ResumeOffset(SectionOf(sections, typeName).value, key).value, count), m)
  {
    var section := SectionOf(sections, typeName);
    if section.Some? && ResumeOffset(section.value, key).Some? {
      var start := ResumeOffset(section.value, key).value;
      FetchCapped(api, start, count, m, []);
      assert [] + Collected(api, start, count) == Collected(api, start, count);
    }
  }

  /** Without a cap, the loop collects the whole collection from its start. */
  lemma FetchResumedUncapped(api: Api, sections: seq<(string, Json)>, typeName: string, key: string, count: nat)
    requires count > 0
    ensures var r := FetchResumed(api, sections, typeName, key, count, None);
      r.result.Some? ==>
        r.result.value.items == Collected(api, ResumeOffset(SectionOf(sections, typeName).value, key).value, count)
  {
    var section := SectionOf(sections, typeName);
    if section.Some? && ResumeOffset(section.value, key).Some? {
      var start := ResumeOffset(section.value, key).value;
      FetchUncapped(api, start, count, []);
      assert [] + Collected(api, start, count) == Collected(api, start, count);
    }
  }
}
