/**
 * Offset pagination as the downloaders drive it, with the VK API as an
 * abstract page function: `api[offset]` is the list of items a call with
 * that offset returns, and an offset the map does not hold returns an empty
 * page. Being a finite map, the collection behind it is finite, which is
 * what makes every fetch loop end.
 *
 * Also Python's slice bounds, which the loops use to cap and resume.
 */
module Paging {
  import opened Wrappers
  import opened JsonValues

  type Api = map<int, seq<Json>>

  /** `resp.get("items", [])` for a call at `offset`. */
  function Page(api: Api, offset: int): seq<Json> {
    if offset in api then api[offset] else []
  }

  /** The non-empty pages still ahead of `offset`: the loops' termination measure. */
  function Remaining(api: Api, offset: int): nat {
    |set o | o in api && o >= offset|
  }

  lemma SubsetCard<T>(a: set<T>, b: set<T>)
    requires a <= b
    ensures |a| <= |b|
  {
    assert b == a + (b - a);
  }

  /** Moving past a page that held items leaves fewer pages ahead. */
  lemma RemainingDecreases(api: Api, offset: int, next: int)
    requires offset in api && offset < next
    ensures Remaining(api, next) < Remaining(api, offset)
  {
    var ahead := set o | o in api && o >= offset;
    var later := set o | o in api && o >= next;
    assert later <= ahead - {offset};
    SubsetCard(later, ahead - {offset});
  }

  /** A Python slice bound `n` on a sequence of length `len`: negative counts from the end, out of range clamps. */
  function SliceBound(n: int, len: nat): (b: nat)
    ensures b <= len
    ensures 0 <= n <= len ==> b == n
    ensures n > len ==> b == len
    ensures n < 0 ==> b == if len + n < 0 then 0 else len + n
  {
    if n < 0 then (if len + n < 0 then 0 else len + n)
    else if n > len then len
    else n
  }

  /** `s[:n]`. */
  function TakePy(s: seq<Json>, n: int): seq<Json> {
    s[..SliceBound(n, |s|)]
  }

  /** `s[n:]`. */
  function DropPy(s: seq<Json>, n: int): seq<Json> {
    s[SliceBound(n, |s|)..]
  }

  /** What a fetch loop returns: the items collected, and the offsets it persisted, in order. */
  datatype Fetched = Fetched(items: seq<Json>, persisted: seq<int>)

  /**
   * The fetch loop from `offset`, having collected `acc` so far: stop on an
   * empty page; add the page; stop, cutting the list to `cap`, once the cap
   * is reached; stop on a short page; otherwise advance by `count`, persist
   * the new offset and go on.
   */
  function Fetch(api: Api, offset: int, count: nat, cap: Option<int>, acc: seq<Json>): Fetched
    requires count > 0
    decreases Remaining(api, offset)
  {
    var page := Page(api, offset);
    if page == [] then Fetched(acc, [])
    else
      var items := acc + page;
      if cap.Some? && |items| >= cap.value then Fetched(TakePy(items, cap.value), [])
      else if |page| < count then Fetched(items, [])
      else
        RemainingDecreases(api, offset, offset + count);
        var rest := Fetch(api, offset + count, count, cap, items);
        Fetched(rest.items, [offset + count] + rest.persisted)
  }

  /** Everything the collection holds from `offset` on, up to and including the first short page. */
  function Collected(api: Api, offset: int, count: nat): seq<Json>
    requires count > 0
    decreases Remaining(api, offset)
  {
    var page := Page(api, offset);
    if |page| < count then page
    else
      RemainingDecreases(api, offset, offset + count);
      page + Collected(api, offset + count, count)
  }

  /**
   * The paging loop itself: one call per page, appending each page and
   * persisting each new offset after a full page.
   */
  method FetchAll(api: Api, start: int, count: nat, cap: Option<int>) returns (items: seq<Json>, persisted: seq<int>)
    requires count > 0
    ensures Fetched(items, persisted) == Fetch(api, start, count, cap, [])
  {
    items := [];
    persisted := [];
    var offset := start;
    while true
      invariant var f := Fetch(api, offset, count, cap, items);
        Fetch(api, start, count, cap, []) == Fetched(f.items, persisted + f.persisted)
      decreases Remaining(api, offset)
    {
      var page := Page(api, offset);
      if page == [] {
        break;
      }
      var acc := items;
      items := items + page;
      if cap.Some? && |items| >= cap.value {
        items := TakePy(items, cap.value);
        break;
      }
      if |page| < count {
        break;
      }
      RemainingDecreases(api, offset, offset + count);
      FetchAdvances(api, offset, count, cap, acc);
      offset := offset + count;
      persisted := persisted + [offset];
    }
  }

  /** A full page under the cap: the fetch goes on from the next offset, which it persists first. */
  lemma FetchAdvances(api: Api, offset: int, count: nat, cap: Option<int>, acc: seq<Json>)
    requires count > 0
    requires Page(api, offset) != [] && |Page(api, offset)| >= count
    requires !(cap.Some? && |acc + Page(api, offset)| >= cap.value)
    ensures var rest := Fetch(api, offset + count, count, cap, acc + Page(api, offset));
      Fetch(api, offset, count, cap, acc) == Fetched(rest.items, [offset + count] + rest.persisted)
  {
  }

  /** Without a cap, a fetch returns the whole collection from its offset. */
  lemma {:induction false} FetchUncapped(api: Api, offset: int, count: nat, acc: seq<Json>)
    requires count > 0
    ensures Fetch(api, offset, count, None, acc).items == acc + Collected(api, offset, count)
    decreases Remaining(api, offset)
  {
    var page := Page(api, offset);
    if page != [] && |page| >= count {
      RemainingDecreases(api, offset, offset + count);
      FetchUncapped(api, offset + count, count, acc + page);
    }
  }

  /**
   * With a cap `m` not below what is already collected, a fetch returns the
   * first `m` items of the collection, so never more than `m`.
   */
  lemma {:induction false} FetchCapped(api: Api, offset: int, count: nat, m: int, acc: seq<Json>)
    requires count > 0 && |acc| <= m
    ensures var items := Fetch(api, offset, count, Some(m), acc).items;
      items == TakePy(acc + Collected(api, offset, count), m) && |items| <= m
    decreases Remaining(api, offset)
  {
    var page := Page(api, offset);
    if page != [] {
      var items := acc + page;
      if |items| >= m {
        var c := Collected(api, offset, count);
        assert c[..|page|] == page;
        assert (acc + c)[..m] == items[..m];
      } else if |page| >= count {
        RemainingDecreases(api, offset, offset + count);
        FetchCapped(api, offset + count, count, m, items);
        assert acc + Collected(api, offset, count) == items + Collected(api, offset + count, count);
      }
    }
  }

  /**
   * The offsets a fetch persists: the first is one page past the start, each
   * is one page past the previous one, and each follows a full page.
   */
  lemma {:induction false} FetchPersisted(api: Api, offset: int, count: nat, cap: Option<int>, acc: seq<Json>)
    requires count > 0
    ensures var p := Fetch(api, offset, count, cap, acc).persisted;
      && (|p| > 0 ==> p[0] == offset + count)
      && Stepped(p, count)
      && AfterFullPages(api, p, count)
    decreases Remaining(api, offset)
  {
    var page := Page(api, offset);
    if page != [] {
      var items := acc + page;
      if !(cap.Some? && |items| >= cap.value) && |page| >= count {
        RemainingDecreases(api, offset, offset + count);
        FetchPersisted(api, offset + count, count, cap, items);
        FetchAdvances(api, offset, count, cap, acc);
        PersistedCons(api, offset + count, Fetch(api, offset + count, count, cap, items).persisted, count);
      }
    }
  }

  /** Each offset is one page past the previous one. */
  predicate Stepped(p: seq<int>, count: int) {
    forall k :: 0 <= k < |p| - 1 ==> p[k + 1] == p[k] + count
  }

  /** Each offset follows a full page. */
  predicate AfterFullPages(api: Api, p: seq<int>, count: int) {
    forall k :: 0 <= k < |p| ==> |Page(api, p[k] - count)| >= count
  }

  /** An offset after a full page, put in front of offsets that continue one page past it. */
  lemma PersistedCons(api: Api, x: int, rest: seq<int>, count: int)
    requires |Page(api, x - count)| >= count
    requires |rest| > 0 ==> rest[0] == x + count
    requires Stepped(rest, count) && AfterFullPages(api, rest, count)
    ensures Stepped([x] + rest, count) && AfterFullPages(api, [x] + rest, count)
  {
    var p := [x] + rest;
    assert forall k :: 1 <= k < |p| ==> p[k] == rest[k - 1];
  }

  /**
   * `int(section.get(key, 0))`: where a resumed loop starts; an absent key
   * starts at 0, and a value `int()` rejects raises (`None`).
   */
  function ResumeOffset(section: seq<(string, Json)>, key: string): (r: Option<int>)
    ensures Lookup(section, key).None? ==> r == Some(0)
    ensures forall i :: Lookup(section, key) == Some(Int(i)) ==> r == Some(i)
    ensures forall v :: Lookup(section, key) == Some(v) && (v.Null? || v.Arr? || v.Obj?) ==> r == None
  {
    ToInt(Lookup(section, key).GetOr(Int(0)))
  }
}
