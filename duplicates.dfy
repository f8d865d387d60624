/**
 * The duplicate checker (`filter.py`, the same in both packages): files
 * are read in chunks, hashed whole or on their first 1024 bytes, and
 * `check_for_duplicates` counts the "*.jpg" files of a folder whose
 * content hash repeats an earlier one. It only counts: no file is deleted.
 *
 * The hash function (SHA-1 in the source) is a parameter; feeding it
 * several chunks one after the other hashes their concatenation.
 */
module Duplicates {
  import opened Files

  /** A digest of the hash function. */
  type Digest = seq<byte>

  // ---------------------------------------------------------------------
  // `chunk_reader` and `get_hash`
  // ---------------------------------------------------------------------

  /**
   * `fobj.read(size)` at offset `pos`: the next `size` bytes, fewer at the
   * end of the file; a negative size reads to the end.
   */
  function Read(content: seq<byte>, pos: nat, size: int): (r: seq<byte>)
    requires pos <= |content|
    ensures pos + |r| <= |content| && r == content[pos..pos + |r|]
    ensures size >= 0 ==> |r| <= size
    ensures r == [] <==> pos == |content| || size == 0
    ensures size < 0 ==> pos + |r| == |content|
  {
    if size < 0 || pos + size > |content| then content[pos..] else content[pos..pos + size]
  }

  /** The chunks one after the other. */
  function Flatten(chunks: seq<seq<byte>>): seq<byte> {
    if chunks == [] then [] else Flatten(chunks[..|chunks| - 1]) + chunks[|chunks| - 1]
  }

  /**
   * `chunk_reader(fobj, chunk_size)`: the chunks `read` returns until it
   * returns nothing. For a positive size they are non-empty, at most that
   * long, and make up the whole content; a size of 0 yields nothing and a
   * negative size the whole content at once.
   */
  method ChunkReader(content: seq<byte>, chunkSize: int) returns (chunks: seq<seq<byte>>)
    ensures chunkSize != 0 ==> Flatten(chunks) == content
    ensures chunkSize == 0 ==> chunks == []
    ensures forall c :: c in chunks ==> c != [] && (chunkSize > 0 ==> |c| <= chunkSize)
    ensures chunkSize < 0 ==> |chunks| <= 1
  {
    chunks := [];
    var pos: nat := 0;
    var done := false;
    while !done
      invariant pos <= |content|
      invariant Flatten(chunks) == content[..pos]
      invariant forall c :: c in chunks ==> c != [] && (chunkSize > 0 ==> |c| <= chunkSize)
      invariant chunkSize == 0 ==> chunks == []
      invariant chunkSize < 0 ==> |chunks| <= 1 && (|chunks| == 1 ==> pos == |content|)
      invariant done ==> chunkSize == 0 || pos == |content|
      decreases |content| - pos, if done then 0 else 1
    {
      var chunk := Read(content, pos, chunkSize);
      if chunk == [] {
        done := true;
      } else {
        assert content[..pos + |chunk|] == content[..pos] + chunk;
        chunks := chunks + [chunk];
        pos := pos + |chunk|;
      }
    }
    assert content[..|content|] == content;
  }

  /** The size `get_hash` reads when it hashes only the start of a file. */
  const FirstChunk: nat := 1024

  /** The first 1024 bytes of a content, or all of a shorter one. */
  function Prefix(content: seq<byte>): (r: seq<byte>)
    ensures |r| <= FirstChunk && r <= content
    ensures |content| <= FirstChunk ==> r == content
  {
    if |content| <= FirstChunk then content else content[..FirstChunk]
  }

  /**
   * `get_hash(file, first_chunk_only)`: the digest of the first 1024 bytes
   * read at once, or of every chunk of `chunk_reader` fed in turn, which is
   * the digest of the whole content.
   */
  method GetHash(content: seq<byte>, firstChunkOnly: bool, hash: seq<byte> -> Digest) returns (d: Digest)
    ensures d == hash(if firstChunkOnly then Prefix(content) else content)
  {
    if firstChunkOnly {
      assert content[0..] == content && content[0..|content|] == content;
      assert Read(content, 0, FirstChunk) == Prefix(content);
      d := hash(Read(content, 0, FirstChunk));
      return;
    }
    var chunks := ChunkReader(content, FirstChunk);
    var fed: seq<byte> := [];
    for i := 0 to |chunks|
      invariant fed == Flatten(chunks[..i])
    {
      assert chunks[..i + 1][..i] == chunks[..i];
      fed := fed + chunks[i];
    }
    assert chunks[..|chunks|] == chunks;
    d := hash(fed);
  }

  // ---------------------------------------------------------------------
  // Grouping in a dict of lists, in insertion order
  // ---------------------------------------------------------------------

  ghost predicate Distinct<T>(xs: seq<T>) {
    forall i, j :: 0 <= i < j < |xs| ==> xs[i] != xs[j]
  }

  /** The items of `xs` under key `k`, in order: what `groups[k]` holds once every item was appended. */
  ghost function Where<T, K>(xs: seq<T>, key: T -> K, k: K): seq<T> {
    if xs == [] then [] else Where(xs[..|xs| - 1], key, k) + (if key(xs[|xs| - 1]) == k then [xs[|xs| - 1]] else [])
  }

  lemma {:induction false} WhereMember<T, K>(xs: seq<T>, key: T -> K, k: K, y: T)
    ensures y in Where(xs, key, k) <==> y in xs && key(y) == k
  {
    if xs != [] {
      WhereMember(xs[..|xs| - 1], key, k, y);
      assert xs == xs[..|xs| - 1] + [xs[|xs| - 1]];
    }
  }

  lemma {:induction false} WhereDistinct<T, K>(xs: seq<T>, key: T -> K, k: K)
    requires Distinct(xs)
    ensures Distinct(Where(xs, key, k))
  {
    if xs != [] {
      var init, last := xs[..|xs| - 1], xs[|xs| - 1];
      WhereDistinct(init, key, k);
      forall y | y in Where(init, key, k)
        ensures y != last
      {
        WhereMember(init, key, k, y);
      }
      DistinctConcat(Where(init, key, k), if key(last) == k then [last] else []);
    }
  }

  /** Two distinct sequences with no common item concatenate to a distinct one. */
  lemma DistinctConcat<T>(a: seq<T>, b: seq<T>)
    requires Distinct(a) && Distinct(b)
    requires forall y :: y in a ==> y !in b
    ensures Distinct(a + b)
  {
    forall i, j | 0 <= i < j < |a + b|
      ensures (a + b)[i] != (a + b)[j]
    {
      if j >= |a| && i < |a| {
        assert (a + b)[i] in a && (a + b)[j] in b;
      }
    }
  }

  /**
   * `groups` is the dict of lists built by appending every item of `xs`
   * under its key, and `keys` its keys in insertion order.
   */
  ghost predicate Grouped<T(!new), K(!new)>(xs: seq<T>, key: T -> K, keys: seq<K>, groups: map<K, seq<T>>) {
    && (forall k :: k in groups <==> k in keys)
    && Distinct(keys)
    && (forall k :: k in groups ==> groups[k] == Where(xs, key, k) && groups[k] != [])
    && (forall x :: x in xs ==> key(x) in groups)
  }

  /** `groups[key(x)].append(x)` on a `defaultdict(list)` keeps the grouping. */
  lemma GroupedAppend<T(!new), K(!new)>(xs: seq<T>, key: T -> K, keys: seq<K>, groups: map<K, seq<T>>,
                                x: T, keys': seq<K>, groups': map<K, seq<T>>)
    requires Grouped(xs, key, keys, groups)
    requires key(x) in groups ==> keys' == keys && groups' == groups[key(x) := groups[key(x)] + [x]]
    requires key(x) !in groups ==> keys' == keys + [key(x)] && groups' == groups[key(x) := [x]]
    ensures Grouped(xs + [x], key, keys', groups')
  {
    var ys := xs + [x];
    assert ys[..|ys| - 1] == xs && ys[|ys| - 1] == x;
    forall k | k in groups' && k != key(x)
      ensures groups'[k] == Where(ys, key, k)
    {
    }
    if key(x) !in groups {
      assert Where(xs, key, key(x)) == [] by {
        if Where(xs, key, key(x)) != [] {
          var y := Where(xs, key, key(x))[0];
          WhereMember(xs, key, key(x), y);
        }
      }
    }
  }

  /** One more item of `s` taken. */
  lemma SliceStep<T>(s: seq<T>, j: nat)
    requires j < |s|
    ensures s[..j + 1] == s[..j] + [s[j]]
  {
  }

  /** The big groups (two items or more) of `keys`, one after the other, in key order. */
  ghost function BigConcat<T, K>(keys: seq<K>, groups: map<K, seq<T>>): seq<T>
    requires forall k :: k in keys ==> k in groups
  {
    if keys == [] then []
    else
      var last := keys[|keys| - 1];
      BigConcat(keys[..|keys| - 1], groups) + (if |groups[last]| >= 2 then groups[last] else [])
  }

  /**
   * An item is in the big groups of some of the keys exactly when it is an
   * item of `xs` under one of those keys that it shares with another item.
   */
  lemma {:induction false} BigMember<T, K>(xs: seq<T>, key: T -> K, ks: seq<K>, groups: map<K, seq<T>>, y: T)
    requires forall k :: k in ks ==> k in groups && groups[k] == Where(xs, key, k)
    ensures y in BigConcat(ks, groups) <==> y in xs && key(y) in ks && |Where(xs, key, key(y))| >= 2
  {
    if ks != [] {
      var init, last := ks[..|ks| - 1], ks[|ks| - 1];
      assert forall k :: k in init ==> k in ks;
      BigMember(xs, key, init, groups, y);
      WhereMember(xs, key, last, y);
      assert key(y) in ks <==> key(y) in init || key(y) == last;
    }
  }

  /** No item appears twice in the big groups of distinct keys. */
  lemma {:induction false} BigPrefix<T, K>(xs: seq<T>, key: T -> K, ks: seq<K>, groups: map<K, seq<T>>)
    requires Distinct(xs) && Distinct(ks)
    requires forall k :: k in ks ==> k in groups && groups[k] == Where(xs, key, k)
    ensures Distinct(BigConcat(ks, groups))
  {
    if ks != [] {
      var init, last := ks[..|ks| - 1], ks[|ks| - 1];
      assert Distinct(init);
      assert forall k :: k in init ==> k in ks;
      BigPrefix(xs, key, init, groups);
      var g := if |groups[last]| >= 2 then groups[last] else [];
      forall y | y in BigConcat(init, groups)
        ensures y !in g
      {
        BigMember(xs, key, init, groups, y);
        WhereMember(xs, key, last, y);
      }
      WhereDistinct(xs, key, last);
      DistinctConcat(BigConcat(init, groups), g);
    }
  }

  /** In a distinct sequence, an item shares its key with another item exactly when its group holds two or more. */
  lemma TwoInWhere<T, K>(xs: seq<T>, key: T -> K, y: T)
    requires Distinct(xs) && y in xs
    ensures |Where(xs, key, key(y))| >= 2 <==> exists q :: q in xs && q != y && key(q) == key(y)
  {
    var w := Where(xs, key, key(y));
    WhereMember(xs, key, key(y), y);
    WhereDistinct(xs, key, key(y));
    if |w| >= 2 {
      var q := if w[0] != y then w[0] else w[1];
      assert q in w;
      WhereMember(xs, key, key(y), q);
    }
    if exists q :: q in xs && q != y && key(q) == key(y) {
      var q :| q in xs && q != y && key(q) == key(y);
      WhereMember(xs, key, key(y), q);
      var i :| 0 <= i < |w| && w[i] == y;
      var j :| 0 <= j < |w| && w[j] == q;
      assert i != j;
    }
  }

  // ---------------------------------------------------------------------
  // Counting repeated hashes
  // ---------------------------------------------------------------------

  /** The keys of the items of `xs`. */
  ghost function KeySet<T, K>(xs: seq<T>, key: T -> K): set<K> {
    set x | x in xs :: key(x)
  }

  /** The items whose key an earlier item already had, in order: what the last loop appends to `duplicates`. */
  ghost function Repeats<T, K>(xs: seq<T>, key: T -> K): seq<T> {
    if xs == [] then []
    else
      var init, last := xs[..|xs| - 1], xs[|xs| - 1];
      Repeats(init, key) + (if key(last) in KeySet(init, key) then [last] else [])
  }

  /** Every item is either a repeat or brings a new key: repeats plus distinct keys make up all items. */
  lemma {:induction false} RepeatsCount<T, K>(xs: seq<T>, key: T -> K)
    ensures |Repeats(xs, key)| + |KeySet(xs, key)| == |xs|
  {
    if xs != [] {
      var init, last := xs[..|xs| - 1], xs[|xs| - 1];
      RepeatsCount(init, key);
      assert xs == init + [last];
      assert KeySet(xs, key) == KeySet(init, key) + {key(last)} by {
        forall z | z in KeySet(xs, key)
          ensures z in KeySet(init, key) + {key(last)}
        {
          var y :| y in xs && key(y) == z;
          if y != last {
            assert y in init;
          }
        }
      }
    }
  }

  /**
   * In a distinct sequence an item is a repeat exactly when an earlier item
   * has its key: the first item with each key is never one.
   */
  lemma {:induction false} RepeatsMember<T, K>(xs: seq<T>, key: T -> K, k: nat)
    requires Distinct(xs) && k < |xs|
    ensures xs[k] in Repeats(xs, key) <==> exists j :: 0 <= j < k && key(xs[j]) == key(xs[k])
  {
    var init, last := xs[..|xs| - 1], xs[|xs| - 1];
    assert Distinct(init);
    if k < |xs| - 1 {
      RepeatsMember(init, key, k);
      assert xs[k] == init[k] && xs[k] != last;
      assert forall j :: 0 <= j < k ==> init[j] == xs[j];
    } else {
      RepeatsOf(init, key, last);
      assert key(last) in KeySet(init, key) <==> exists j :: 0 <= j < k && key(xs[j]) == key(last) by {
        if key(last) in KeySet(init, key) {
          var y :| y in init && key(y) == key(last);
          var j :| 0 <= j < |init| && init[j] == y;
          assert xs[j] == y;
        }
        if exists j :: 0 <= j < k && key(xs[j]) == key(last) {
          var j :| 0 <= j < k && key(xs[j]) == key(last);
          assert init[j] == xs[j];
        }
      }
    }
  }

  /** The repeats are items of the sequence. */
  lemma {:induction false} RepeatsOf<T, K>(xs: seq<T>, key: T -> K, y: T)
    requires y !in xs
    ensures y !in Repeats(xs, key)
  {
    if xs != [] {
      RepeatsOf(xs[..|xs| - 1], key, y);
      assert xs == xs[..|xs| - 1] + [xs[|xs| - 1]];
    }
  }

  // ---------------------------------------------------------------------
  // `check_for_duplicates`
  // ---------------------------------------------------------------------

  /** The content of a file; a path that is not a file reads as empty. */
  function Content(files: map<Path, seq<byte>>, p: Path): seq<byte> {
    if p in files then files[p] else []
  }

  /** `st_size`, the key of `hashes_by_size`. */
  function SizeKey(files: map<Path, seq<byte>>): Path -> nat {
    p => |Content(files, p)|
  }

  /** `(hash of the first 1024 bytes, size)`, the key of `hashes_on_1k`. */
  function PrefixKey(files: map<Path, seq<byte>>, hash: seq<byte> -> Digest): Path -> (Digest, nat) {
    (p: Path) => (hash(Prefix(Content(files, p))), |Content(files, p)| as nat)
  }

  /** The hash of the whole content, the key of `hashes_full`. */
  function FullKey(files: map<Path, seq<byte>>, hash: seq<byte> -> Digest): Path -> Digest {
    p => hash(Content(files, p))
  }

  predicate EndsWith(s: string, suffix: string) {
    |suffix| <= |s| && s[|s| - |suffix|..] == suffix
  }

  predicate IsJpg(p: Path) {
    p != [] && EndsWith(p[|p| - 1], ".jpg")
  }

  /** The entries `path.glob("*.jpg")` returns: those whose name ends in ".jpg", in listing order. */
  function JpgFiles(entries: seq<Path>): (r: seq<Path>)
    ensures forall p :: p in r <==> p in entries && IsJpg(p)
  {
    if entries == [] then []
    else
      var init, last := entries[..|entries| - 1], entries[|entries| - 1];
      assert entries == init + [last];
      JpgFiles(init) + (if IsJpg(last) then [last] else [])
  }

  /** A listing without repeats gives ".jpg" files without repeats. */
  lemma {:induction false} JpgFilesDistinct(entries: seq<Path>)
    requires Distinct(entries)
    ensures Distinct(JpgFiles(entries))
  {
    if entries != [] {
      var init, last := entries[..|entries| - 1], entries[|entries| - 1];
      assert Distinct(init) && last !in init;
      JpgFilesDistinct(init);
      DistinctConcat(JpgFiles(init), if IsJpg(last) then [last] else []);
    }
  }

  /** `groups[k].append(x)` on a `defaultdict(list)`, with `k` the key of `x`. */
  method AppendGrouped<T(!new), K(==,!new)>(ghost xs: seq<T>, ghost key: T -> K, keys: seq<K>, groups: map<K, seq<T>>, k: K, x: T)
      returns (keys': seq<K>, groups': map<K, seq<T>>)
    requires Grouped(xs, key, keys, groups) && key(x) == k
    ensures Grouped(xs + [x], key, keys', groups')
  {
    if k in groups {
      keys', groups' := keys, groups[k := groups[k] + [x]];
    } else {
      keys', groups' := keys + [k], groups[k := [x]];
    }
    GroupedAppend(xs, key, keys, groups, x, keys', groups');
  }

  /** The first loop of `check_for_duplicates`: `hashes_by_size`, every file under its size. */
  method GroupBySize(files: seq<Path>, contents: map<Path, seq<byte>>) returns (sizeKeys: seq<nat>, bySize: map<nat, seq<Path>>)
    ensures Grouped(files, SizeKey(contents), sizeKeys, bySize)
  {
    sizeKeys, bySize := [], map[];
    for i := 0 to |files|
      invariant Grouped(files[..i], SizeKey(contents), sizeKeys, bySize)
    {
      sizeKeys, bySize := AppendGrouped<Path, nat>(files[..i], SizeKey(contents), sizeKeys, bySize, |Content(contents, files[i])|, files[i]);
      SliceStep(files, i);
    }
    assert files[..|files|] == files;
  }

  /** The inner loop of the second: the files of one shared size, each put under its prefix hash and that size. */
  method HashPrefixGroup(contents: map<Path, seq<byte>>, hash: seq<byte> -> Digest, size: nat, group: seq<Path>,
                         prefixHashed: seq<Path>, keys1k: seq<(Digest, nat)>, on1k: map<(Digest, nat), seq<Path>>)
      returns (prefixHashed': seq<Path>, keys1k': seq<(Digest, nat)>, on1k': map<(Digest, nat), seq<Path>>)
    requires forall p :: p in group ==> |Content(contents, p)| == size
    requires Grouped(prefixHashed, PrefixKey(contents, hash), keys1k, on1k)
    ensures prefixHashed' == prefixHashed + group
    ensures Grouped(prefixHashed', PrefixKey(contents, hash), keys1k', on1k')
  {
    var pk := PrefixKey(contents, hash);
    prefixHashed', keys1k', on1k' := prefixHashed, keys1k, on1k;
    for j := 0 to |group|
      invariant prefixHashed' == prefixHashed + group[..j]
      invariant Grouped(prefixHashed', pk, keys1k', on1k')
    {
      var p := group[j];
      var small := GetHash(Content(contents, p), true, hash);
      keys1k', on1k' := AppendGrouped(prefixHashed', pk, keys1k', on1k', (small, size), p);
      SliceStep(group, j);
      prefixHashed' := prefixHashed' + [p];
    }
    assert group[..|group|] == group;
  }

  /**
   * The second loop: for every size shared by two files or more, each of
   * its files hashed on its first 1024 bytes and put in `hashes_on_1k`
   * under that hash and the size. `prefixHashed` are the files hashed, in
   * order.
   */
  method HashPrefixes(contents: map<Path, seq<byte>>, hash: seq<byte> -> Digest, sizeKeys: seq<nat>, bySize: map<nat, seq<Path>>)
      returns (prefixHashed: seq<Path>, keys1k: seq<(Digest, nat)>, on1k: map<(Digest, nat), seq<Path>>)
    requires forall s :: s in sizeKeys ==> s in bySize && forall p :: p in bySize[s] ==> |Content(contents, p)| == s
    ensures prefixHashed == BigConcat(sizeKeys, bySize)
    ensures Grouped(prefixHashed, PrefixKey(contents, hash), keys1k, on1k)
  {
    keys1k, on1k, prefixHashed := [], map[], [];
    for i := 0 to |sizeKeys|
      invariant prefixHashed == BigConcat(sizeKeys[..i], bySize)
      invariant Grouped(prefixHashed, PrefixKey(contents, hash), keys1k, on1k)
    {
      assert sizeKeys[..i + 1][..i] == sizeKeys[..i];
      var group := bySize[sizeKeys[i]];
      if |group| >= 2 {
        prefixHashed, keys1k, on1k := HashPrefixGroup(contents, hash, sizeKeys[i], group, prefixHashed, keys1k, on1k);
      }
    }
    assert sizeKeys[..|sizeKeys|] == sizeKeys;
  }

  /**
   * One step of the last loop: an item whose key was seen is a repeat,
   * otherwise its key is recorded with it.
   */
  method RecordFirst<T, K>(ghost xs: seq<T>, ghost key: T -> K, seen: map<K, T>, repeats: seq<T>, k: K, x: T)
      returns (seen': map<K, T>, repeats': seq<T>)
    requires k == key(x)
    requires seen.Keys == KeySet(xs, key) && repeats == Repeats(xs, key)
    ensures seen'.Keys == KeySet(xs + [x], key) && repeats' == Repeats(xs + [x], key)
  {
    KeySetAppend(xs, key, x);
    if k in seen {
      seen', repeats' := seen, repeats + [x];
    } else {
      seen', repeats' := seen[k := x], repeats;
    }
  }

  /** The inner loop of the third: the files of one group, each hashed whole (`fk` names that hash) and checked against `hashes_full`. */
  method HashFullGroup(contents: map<Path, seq<byte>>, hash: seq<byte> -> Digest, ghost fk: Path -> Digest, group: seq<Path>,
                       fullyHashed: seq<Path>, hashesFull: map<Digest, Path>, duplicates: seq<Path>)
      returns (fullyHashed': seq<Path>, hashesFull': map<Digest, Path>, duplicates': seq<Path>)
    requires forall j :: 0 <= j < |group| ==> fk(group[j]) == hash(Content(contents, group[j]))
    requires hashesFull.Keys == KeySet(fullyHashed, fk)
    requires duplicates == Repeats(fullyHashed, fk)
    ensures fullyHashed' == fullyHashed + group
    ensures hashesFull'.Keys == KeySet(fullyHashed', fk)
    ensures duplicates' == Repeats(fullyHashed', fk)
  {
    fullyHashed', hashesFull', duplicates' := fullyHashed, hashesFull, duplicates;
    for j := 0 to |group|
      invariant fullyHashed' == fullyHashed + group[..j]
      invariant hashesFull'.Keys == KeySet(fullyHashed', fk)
      invariant duplicates' == Repeats(fullyHashed', fk)
    {
      var p := group[j];
      var full := GetHash(Content(contents, p), false, hash);
      assert full == fk(p);
      hashesFull', duplicates' := RecordFirst(fullyHashed', fk, hashesFull', duplicates', full, p);
      SliceStep(group, j);
      fullyHashed' := fullyHashed' + [p];
    }
    assert group[..|group|] == group;
  }

  /**
   * The third loop: for every (prefix hash, size) group of two files or
   * more, each file hashed whole; a file whose hash is already in
   * `hashes_full` is a duplicate, otherwise it is recorded there.
   */
  method HashFull(contents: map<Path, seq<byte>>, hash: seq<byte> -> Digest, keys1k: seq<(Digest, nat)>, on1k: map<(Digest, nat), seq<Path>>)
      returns (fullyHashed: seq<Path>, duplicates: seq<Path>)
    requires forall k :: k in keys1k ==> k in on1k
    ensures fullyHashed == BigConcat(keys1k, on1k)
    ensures duplicates == Repeats(fullyHashed, FullKey(contents, hash))
  {
    var hashesFull: map<Digest, Path> := map[];
    fullyHashed, duplicates := [], [];
    for i := 0 to |keys1k|
      invariant fullyHashed == BigConcat(keys1k[..i], on1k)
      invariant hashesFull.Keys == KeySet(fullyHashed, FullKey(contents, hash))
      invariant duplicates == Repeats(fullyHashed, FullKey(contents, hash))
    {
      assert keys1k[..i + 1][..i] == keys1k[..i];
      var group := on1k[keys1k[i]];
      if |group| >= 2 {
        fullyHashed, hashesFull, duplicates := HashFullGroup(contents, hash, FullKey(contents, hash), group, fullyHashed, hashesFull, duplicates);
      }
    }
    assert keys1k[..|keys1k|] == keys1k;
  }

  /** One more item: its key joins the key set, and it is a repeat exactly when its key was there. */
  lemma KeySetAppend<T, K>(xs: seq<T>, key: T -> K, x: T)
    ensures KeySet(xs + [x], key) == KeySet(xs, key) + {key(x)}
    ensures Repeats(xs + [x], key) == Repeats(xs, key) + (if key(x) in KeySet(xs, key) then [x] else [])
  {
    var ys := xs + [x];
    assert ys[..|ys| - 1] == xs;
    forall z | z in KeySet(ys, key)
      ensures z in KeySet(xs, key) + {key(x)}
    {
      var y :| y in ys && key(y) == z;
      if y != x {
        assert y in xs;
      }
    }
  }

  /**
   * `check_for_duplicates(path)`. `entries` are the files of the folder in
   * the order the system lists them. The ".jpg" files are grouped by size;
   * the files of every size shared by two or more are hashed on their first
   * 1024 bytes and grouped by that hash and the size; the files of every
   * such group of two or more are hashed whole, and a file whose full hash
   * was seen before is a duplicate. The result is the number of duplicates;
   * the filesystem is only read.
   */
  method CheckForDuplicates(fs: FileSystem, entries: seq<Path>, hash: seq<byte> -> Digest)
      returns (count: nat, prefixHashed: seq<Path>, fullyHashed: seq<Path>, duplicates: seq<Path>)
    requires Distinct(entries)
    ensures var files, size, pk := JpgFiles(entries), SizeKey(fs.files), PrefixKey(fs.files, hash);
      && (forall p :: p in prefixHashed <==> p in files && exists q :: q in files && q != p && size(q) == size(p))
      && (forall p :: p in fullyHashed <==> p in files && exists q :: q in files && q != p && pk(q) == pk(p))
    ensures Distinct(fullyHashed)
    ensures duplicates == Repeats(fullyHashed, FullKey(fs.files, hash))
    ensures count == |duplicates| == |fullyHashed| - |KeySet(fullyHashed, FullKey(fs.files, hash))|
  {
    var files := JpgFiles(entries);
    JpgFilesDistinct(entries);
    var sizeKeys, bySize := GroupBySize(files, fs.files);
    forall s, p | s in sizeKeys && p in bySize[s]
      ensures |Content(fs.files, p)| == s
    {
      WhereMember(files, SizeKey(fs.files), s, p);
    }
    var keys1k, on1k;
    prefixHashed, keys1k, on1k := HashPrefixes(fs.files, hash, sizeKeys, bySize);
    fullyHashed, duplicates := HashFull(fs.files, hash, keys1k, on1k);
    count := |duplicates|;
    SharedSizes(files, fs.files, sizeKeys, bySize);
    SharedPrefixes(files, fs.files, hash, prefixHashed, keys1k, on1k);
    RepeatsCount(fullyHashed, FullKey(fs.files, hash));
  }

  /** The prefix-hashed files are the ".jpg" files that share their size with another, none of them twice. */
  lemma SharedSizes(files: seq<Path>, contents: map<Path, seq<byte>>, sizeKeys: seq<nat>, bySize: map<nat, seq<Path>>)
    requires Distinct(files) && Grouped(files, SizeKey(contents), sizeKeys, bySize)
    ensures var size := SizeKey(contents);
      forall p :: p in BigConcat(sizeKeys, bySize) <==> p in files && exists q :: q in files && q != p && size(q) == size(p)
    ensures Distinct(BigConcat(sizeKeys, bySize))
  {
    var size := SizeKey(contents);
    BigPrefix(files, size, sizeKeys, bySize);
    forall p
      ensures p in BigConcat(sizeKeys, bySize) <==> p in files && exists q :: q in files && q != p && size(q) == size(p)
    {
      BigMember(files, size, sizeKeys, bySize, p);
      if p in files {
        TwoInWhere(files, size, p);
      }
    }
  }

  /**
   * The fully hashed files are the ".jpg" files that share size and
   * prefix hash with another (such a file shares its size, so it was
   * prefix-hashed), none of them twice.
   */
  lemma SharedPrefixes(files: seq<Path>, contents: map<Path, seq<byte>>, hash: seq<byte> -> Digest,
                       prefixHashed: seq<Path>, keys1k: seq<(Digest, nat)>, on1k: map<(Digest, nat), seq<Path>>)
    requires Distinct(prefixHashed) && Grouped(prefixHashed, PrefixKey(contents, hash), keys1k, on1k)
    requires forall p :: p in prefixHashed <==> p in files && exists q :: q in files && q != p && SizeKey(contents)(q) == SizeKey(contents)(p)
    ensures var pk := PrefixKey(contents, hash);
      forall p :: p in BigConcat(keys1k, on1k) <==> p in files && exists q :: q in files && q != p && pk(q) == pk(p)
    ensures Distinct(BigConcat(keys1k, on1k))
  {
    var size, pk := SizeKey(contents), PrefixKey(contents, hash);
    BigPrefix(prefixHashed, pk, keys1k, on1k);
    forall p
      ensures p in BigConcat(keys1k, on1k) <==> p in files && exists q :: q in files && q != p && pk(q) == pk(p)
    {
      BigMember(prefixHashed, pk, keys1k, on1k, p);
      if p in prefixHashed {
        TwoInWhere(prefixHashed, pk, p);
        if exists q :: q in files && q != p && pk(q) == pk(p) {
          var q :| q in files && q != p && pk(q) == pk(p);
          assert size(q) == size(p);
          assert q in prefixHashed;
        }
      } else if p in files {
        forall q | q in files && q != p
          ensures pk(q) != pk(p)
        {
          assert size(q) != size(p);
          assert pk(q).1 == size(q);
        }
      }
    }
  }
}
