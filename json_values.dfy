/**
 * The values the VK API returns (decoded JSON), together with the handful
 * of Python operations the downloaders apply to them: truthiness, `or`,
 * `dict.get`, `x[-1]`, `int(x)`, `str(x)` and `isinstance` tests.
 *
 * A Python operation that raises on a value of the wrong type is modelled
 * as returning `None`.
 */
module JsonValues {
  import opened Wrappers
  import Text

  /** A decoded JSON value; an object keeps its keys in insertion order. */
  datatype Json =
    | Null
    | Bool(b: bool)
    | Int(i: int)
    | Str(s: string)
    | Arr(items: seq<Json>)
    | Obj(fields: seq<(string, Json)>)

  /** Python truthiness: None, False, 0, "", [] and {} are false. */
  predicate Truthy(v: Json) {
    match v
    case Null => false
    case Bool(b) => b
    case Int(i) => i != 0
    case Str(s) => s != ""
    case Arr(items) => items != []
    case Obj(fields) => fields != []
  }

  /** Python `a or b`. */
  function Or(a: Json, b: Json): (r: Json)
    ensures Truthy(a) ==> r == a
    ensures !Truthy(a) ==> r == b
  {
    if Truthy(a) then a else b
  }

  /** The first field named `key`. */
  function Lookup(fields: seq<(string, Json)>, key: string): (r: Option<Json>)
    ensures r.Some? <==> exists k :: 0 <= k < |fields| && fields[k].0 == key
    ensures r.Some? ==> (key, r.value) in fields
  {
    if fields == [] then None
    else if fields[0].0 == key then Some(fields[0].1)
    else
      var r := Lookup(fields[1..], key);
      assert forall k :: 1 <= k < |fields| ==> fields[k] == fields[1..][k - 1];
      r
  }

  /** A lookup in a dict built one field at a time: the first field, or a lookup in the rest. */
  lemma LookupFront(k: string, v: Json, rest: seq<(string, Json)>, key: string)
    ensures Lookup([(k, v)] + rest, key) == if k == key then Some(v) else Lookup(rest, key)
  {
    assert ([(k, v)] + rest)[1..] == rest;
  }

  /** The value at position `k` is what a lookup of its key finds, when no earlier field has that key. */
  lemma {:induction false} LookupAt(fields: seq<(string, Json)>, k: nat)
    requires k < |fields| && forall j :: 0 <= j < k ==> fields[j].0 != fields[k].0
    ensures Lookup(fields, fields[k].0) == Some(fields[k].1)
  {
    if k > 0 {
      assert fields[1..][k - 1] == fields[k];
      LookupAt(fields[1..], k - 1);
    }
  }

  function Keys(fields: seq<(string, Json)>): seq<string> {
    seq(|fields|, k requires 0 <= k < |fields| => fields[k].0)
  }

  /** The keys of a Python dict are distinct. */
  predicate UniqueKeys(fields: seq<(string, Json)>) {
    forall i, j :: 0 <= i < j < |fields| ==> fields[i].0 != fields[j].0
  }

  /** `d[key] = v`: an existing key keeps its place and takes the new value; a new key goes last. */
  function Put(fields: seq<(string, Json)>, key: string, v: Json): (r: seq<(string, Json)>)
    ensures Lookup(r, key) == Some(v)
    ensures forall k :: k != key ==> Lookup(r, k) == Lookup(fields, k)
    ensures Lookup(fields, key).Some? ==> |r| == |fields|
    ensures Lookup(fields, key).None? ==> r == fields + [(key, v)]
  {
    if fields == [] then [(key, v)]
    else if fields[0].0 == key then [(key, v)] + fields[1..]
    else [fields[0]] + Put(fields[1..], key, v)
  }

  /** `d.update(m)`: each entry of `m` put in turn. */
  function Merge(fields: seq<(string, Json)>, m: seq<(string, Json)>): seq<(string, Json)>
    decreases |m|
  {
    if m == [] then fields else Merge(Put(fields, m[0].0, m[0].1), m[1..])
  }

  /**
   * After `d.update(m)`, a key of `m` reads its value in `m`, and every
   * other key reads what it read before.
   */
  lemma {:induction false} MergeLookup(fields: seq<(string, Json)>, m: seq<(string, Json)>, key: string)
    requires UniqueKeys(m)
    ensures Lookup(Merge(fields, m), key) == if Lookup(m, key).Some? then Lookup(m, key) else Lookup(fields, key)
    decreases |m|
  {
    if m != [] {
      assert UniqueKeys(m[1..]) by {
        forall i, j | 0 <= i < j < |m[1..]|
          ensures m[1..][i].0 != m[1..][j].0
        {
          assert m[1..][i] == m[i + 1] && m[1..][j] == m[j + 1];
        }
      }
      MergeLookup(Put(fields, m[0].0, m[0].1), m[1..], key);
      if key == m[0].0 {
        assert Lookup(m[1..], key).None? by {
          forall k | 0 <= k < |m[1..]|
            ensures m[1..][k].0 != key
          {
            assert m[1..][k] == m[k + 1];
          }
        }
      }
    }
  }

  /** Python `d.get(key, default)`; `None` when `d` is not a dict (AttributeError). */
  function Get(d: Json, key: string, default: Json): (r: Option<Json>)
    ensures r.Some? <==> d.Obj?
  {
    match d
    case Obj(fields) => Some(Lookup(fields, key).GetOr(default))
    case _ => None
  }

  /** `d.get(key)` on a value known to be a dict. */
  function Field(d: Json, key: string): Json
    requires d.Obj?
  {
    Lookup(d.fields, key).GetOr(Null)
  }

  /** Python `x[-1]` on a truthy value: the last element of a list or the last character of a string. */
  function Last(v: Json): (r: Option<Json>)
    ensures v.Arr? && v.items != [] ==> r == Some(v.items[|v.items| - 1])
    ensures !(v.Arr? || v.Str?) ==> r == None
  {
    match v
    case Arr(items) => if items == [] then None else Some(items[|items| - 1])
    case Str(s) => if s == [] then None else Some(Str([s[|s| - 1]]))
    case _ => None
  }

  /** Python `int(x)`: an int, a bool, or a string `int()` accepts; anything else raises. */
  function ToInt(v: Json): (r: Option<int>)
    ensures v.Int? ==> r == Some(v.i)
    ensures v.Null? || v.Arr? || v.Obj? ==> r == None
  {
    match v
    case Int(i) => Some(i)
    case Bool(b) => Some(if b then 1 else 0)
    case Str(s) => Text.ParseInt(s)
    case _ => None
  }

  /** Python `str(x)` (also what an f-string inserts). */
  function ToStr(v: Json): string {
    match v
    case Str(s) => s
    case _ => Repr(v)
  }

  /** Python `repr(x)` (string escapes are not modelled). */
  function Repr(v: Json): string
    decreases v, 2
  {
    match v
    case Null => "None"
    case Bool(b) => if b then "True" else "False"
    case Int(i) => Text.IntToString(i)
    case Str(s) => "'" + s + "'"
    case Arr(items) => "[" + ReprItems(v, 0) + "]"
    case Obj(fields) => "{" + ReprFields(v, 0) + "}"
  }

  function ReprItems(v: Json, k: nat): string
    requires v.Arr? && k <= |v.items|
    decreases v, 1, |v.items| - k
  {
    if k == |v.items| then ""
    else (if k == 0 then "" else ", ") + Repr(v.items[k]) + ReprItems(v, k + 1)
  }

  function ReprFields(v: Json, k: nat): string
    requires v.Obj? && k <= |v.fields|
    decreases v, 1, |v.fields| - k
  {
    if k == |v.fields| then ""
    else
      var field := v.fields[k];
      assert field in v.fields;
      (if k == 0 then "" else ", ") + "'" + field.0 + "': " + Repr(field.1) + ReprFields(v, k + 1)
  }

  /** Python `d[key]`: `None` when `d` is not a dict (TypeError) or has no such key (KeyError). */
  function Item(d: Json, key: string): (r: Option<Json>)
    ensures r.Some? <==> d.Obj? && Lookup(d.fields, key).Some?
    ensures r.Some? ==> r.value == Field(d, key)
  {
    if d.Obj? then Lookup(d.fields, key) else None
  }

  /** Python `key in v` for a string `key`: a dict's keys, a list's elements or a substring; other values raise. */
  function In(key: string, v: Json): (r: Option<bool>)
    ensures r.Some? <==> v.Obj? || v.Arr? || v.Str?
    ensures v.Obj? ==> r == Some(Lookup(v.fields, key).Some?)
  {
    match v
    case Obj(fields) => Some(Lookup(fields, key).Some?)
    case Arr(items) => Some(Str(key) in items)
    case Str(s) => Some(Text.Contains(s, key))
    case _ => None
  }

  /** Python `v[0]`: the first element of a list or character of a string; a dict (whose keys are strings), an empty sequence or a scalar raise. */
  function First(v: Json): (r: Option<Json>)
    ensures v.Arr? && v.items != [] ==> r == Some(v.items[0])
    ensures !(v.Arr? || v.Str?) ==> r == None
  {
    match v
    case Arr(items) => if items == [] then None else Some(items[0])
    case Str(s) => if s == [] then None else Some(Str([s[0]]))
    case _ => None
  }

  /** Python unary `-v`: ints negate, and so do bools (as 1 and 0); anything else raises. */
  function Neg(v: Json): (r: Option<Json>)
    ensures r.Some? <==> v.Int? || v.Bool?
    ensures v.Int? ==> r == Some(Int(-v.i))
  {
    match v
    case Int(i) => Some(Int(-i))
    case Bool(b) => Some(Int(if b then -1 else 0))
    case _ => None
  }

  /** Python `len(v)`: the items of a list, the keys of a dict, the characters of a string; anything else raises. */
  function Len(v: Json): (r: Option<nat>)
    ensures r.Some? <==> v.Arr? || v.Obj? || v.Str?
    ensures v.Arr? ==> r == Some(|v.items|)
  {
    match v
    case Arr(items) => Some(|items|)
    case Obj(fields) => Some(|fields|)
    case Str(s) => Some(|s|)
    case _ => None
  }

  /** What a `for` loop over `v` visits: a list's items, a dict's keys, a string's characters; anything else raises. */
  function Iter(v: Json): (r: Option<seq<Json>>)
    ensures r.Some? <==> v.Arr? || v.Obj? || v.Str?
    ensures v.Arr? ==> r == Some(v.items)
    ensures r.Some? ==> Len(v) == Some(|r.value|)
  {
    match v
    case Arr(items) => Some(items)
    case Obj(fields) => Some(seq(|fields|, k requires 0 <= k < |fields| => Str(fields[k].0)))
    case Str(s) => Some(seq(|s|, k requires 0 <= k < |s| => Str([s[k]])))
    case _ => None
  }

  /** Python `v != 0`: false only for 0 and False (which equals 0). */
  predicate NonZero(v: Json) {
    v != Int(0) && v != Bool(false)
  }

  /** `isinstance(x, str) and x` — a non-empty string. */
  predicate IsNonEmptyStr(v: Json) {
    v.Str? && v.s != ""
  }
}
