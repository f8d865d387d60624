/** Optional values and results with an error, used wherever the archiver's code returns None or raises. */
module Wrappers {
  datatype Option<+T> = None | Some(value: T) {
    predicate IsSome() { this.Some? }

    function GetOr(default: T): T {
      match this
      case None => default
      case Some(v) => v
    }
  }

  datatype Result<+T, +E> = Ok(value: T) | Err(error: E) {
    predicate IsOk() { this.Ok? }
  }

  /** `[f(x) for x in items]` where `f` may raise: `None` at the first item it raises on. */
  function MapAll<A, B>(items: seq<A>, f: A -> Option<B>): (r: Option<seq<B>>)
    ensures r.Some? ==> |r.value| == |items|
  {
    if items == [] then Some([])
    else
      match f(items[0])
      case None => None
      case Some(y) =>
        match MapAll(items[1..], f)
        case None => None
        case Some(rest) => Some([y] + rest)
  }

  /** The list maps exactly when every item does, and then item by item. */
  lemma {:induction false} MapAllEach<A, B>(items: seq<A>, f: A -> Option<B>)
    ensures var r := MapAll(items, f);
      && (r.Some? <==> forall k :: 0 <= k < |items| ==> f(items[k]).Some?)
      && (r.Some? ==> forall k :: 0 <= k < |items| ==> Some(r.value[k]) == f(items[k]))
    decreases |items|
  {
    if items != [] {
      MapAllEach(items[1..], f);
      assert forall k :: 0 <= k < |items[1..]| ==> items[1..][k] == items[k + 1];
    }
  }

  /** `a + b` when neither raised. */
  function Cat<T>(a: Option<seq<T>>, b: Option<seq<T>>): Option<seq<T>> {
    if a.Some? && b.Some? then Some(a.value + b.value) else None
  }

  /** Mapping two runs of items is mapping each and joining the results. */
  lemma {:induction false} MapAllAppend<A, B>(a: seq<A>, b: seq<A>, f: A -> Option<B>)
    ensures MapAll(a + b, f) == Cat(MapAll(a, f), MapAll(b, f))
    decreases |a|
  {
    if a == [] {
      assert a + b == b;
      if MapAll(b, f).Some? {
        assert [] + MapAll(b, f).value == MapAll(b, f).value;
      }
    } else {
      var ab := a + b;
      assert ab[0] == a[0] && ab[1..] == a[1..] + b;
      MapAllAppend(a[1..], b, f);
      match f(a[0])
      case None =>
      case Some(y) =>
        assert MapAll(ab, f) == (match MapAll(a[1..] + b, f) case None => None case Some(rest) => Some([y] + rest));
        if MapAll(a[1..], f).Some? && MapAll(b, f).Some? {
          assert [y] + (MapAll(a[1..], f).value + MapAll(b, f).value) == ([y] + MapAll(a[1..], f).value) + MapAll(b, f).value;
        }
    }
  }

  /** A `for` loop that maps each item in turn and stops at the first one `f` raises on. */
  method MapEach<A, B>(items: seq<A>, f: A -> Option<B>) returns (r: Option<seq<B>>)
    ensures r == MapAll(items, f)
  {
    var mapped: seq<B> := [];
    assert items[0..] == items;
    var all := MapAll(items, f);
    if all.Some? {
      assert [] + all.value == all.value;
    }
    for i := 0 to |items|
      invariant MapAll(items, f) == Cat(Some(mapped), MapAll(items[i..], f))
    {
      assert items[i..] == [items[i]] + items[i + 1..];
      MapAllAppend([items[i]], items[i + 1..], f);
      var y := f(items[i]);
      if y.None? {
        return None;
      }
      var rest := MapAll(items[i + 1..], f);
      if rest.Some? {
        assert mapped + ([y.value] + rest.value) == (mapped + [y.value]) + rest.value;
      }
      mapped := mapped + [y.value];
    }
    assert items[|items|..] == [];
    assert mapped + [] == mapped;
    return Some(mapped);
  }
}
