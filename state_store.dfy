/**
 * `TypeStateStore`: the per-type resume cursors of one group directory,
 * kept as one JSON object (section name to a dict of cursor fields) in a
 * state file that is rewritten atomically after every update.
 *
 * The JSON text and its UTF-8 encoding are the abstract `Codec`: `encode` is
 * `json.dumps(...).encode("utf-8")`, `decode` is `read_text` followed by
 * `json.loads`, `None` when either raises.
 */
module StateStore {
  import opened Wrappers
  import opened JsonValues
  import opened Files

  datatype Codec = Codec(encode: Json -> seq<byte>, decode: seq<byte> -> Option<Json>)

  /** The codec reads back what it wrote for `v`. */
  predicate RoundTrips(c: Codec, v: Json) {
    c.decode(c.encode(v)) == Some(v)
  }

  /**
   * `_load`: the file's top-level object, or the empty state when the file
   * is missing, is a directory, does not decode, or does not hold an object.
   */
  function LoadState(files: map<Path, seq<byte>>, stateFile: Path, c: Codec): (state: seq<(string, Json)>)
    ensures stateFile !in files ==> state == []
    ensures stateFile in files && c.decode(files[stateFile]).None? ==> state == []
    ensures stateFile in files && c.decode(files[stateFile]).Some? && !c.decode(files[stateFile]).value.Obj? ==> state == []
  {
    if stateFile !in files then []
    else
      match c.decode(files[stateFile])
      case Some(Obj(fields)) => fields
      case _ => []
  }

  /** The section's dict as `state.get(t) or {}` finds it; `None` when `dict(...)` or `.update` would raise. */
  function SectionOf(state: seq<(string, Json)>, typeName: string): (r: Option<seq<(string, Json)>>)
    ensures Lookup(state, typeName).None? ==> r == Some([])
    ensures Lookup(state, typeName).Some? && !Truthy(Lookup(state, typeName).value) ==> r == Some([])
    ensures Lookup(state, typeName).Some? && Lookup(state, typeName).value.Obj? ==> r == Some(Lookup(state, typeName).value.fields)
    ensures r.None? <==> Lookup(state, typeName).Some? && Truthy(Lookup(state, typeName).value) && !Lookup(state, typeName).value.Obj?
  {
    match Or(Lookup(state, typeName).GetOr(Null), Obj([]))
    case Obj(fields) => Some(fields)
    case _ => None
  }

  /**
   * The state `update(type_name, mapping)` leaves in memory; `None` when the
   * stored section is a truthy non-dict and the update raises.
   */
  function UpdateSection(state: seq<(string, Json)>, typeName: string, mapping: seq<(string, Json)>): Option<seq<(string, Json)>> {
    match SectionOf(state, typeName)
    case None => None
    case Some(current) => Some(Put(state, typeName, Obj(Merge(current, mapping))))
  }

  /**
   * An update succeeds exactly when the section is a dict (or falsy); the
   * section becomes its old fields merged with the mapping, and every other
   * section is as it was.
   */
  lemma UpdateSectionFacts(state: seq<(string, Json)>, typeName: string, mapping: seq<(string, Json)>)
    ensures var r := UpdateSection(state, typeName, mapping);
      && (r.Some? <==> SectionOf(state, typeName).Some?)
      && (r.Some? ==> SectionOf(r.value, typeName) == Some(Merge(SectionOf(state, typeName).value, mapping)))
      && (r.Some? ==> forall other :: other != typeName ==> Lookup(r.value, other) == Lookup(state, other))
  {
  }

  /** Updating one field of a section: the field reads the new value afterwards, and the other sections are untouched. */
  lemma UpdateSectionField(state: seq<(string, Json)>, typeName: string, key: string, v: Json)
    requires SectionOf(state, typeName).Some?
    ensures var r := UpdateSection(state, typeName, [(key, v)]);
      && r.Some? && SectionOf(r.value, typeName).Some?
      && Lookup(SectionOf(r.value, typeName).value, key) == Some(v)
      && forall other :: other != typeName ==> Lookup(r.value, other) == Lookup(state, other)
  {
    UpdateSectionFacts(state, typeName, [(key, v)]);
    MergeLookup(SectionOf(state, typeName).value, [(key, v)], key);
  }

  /** A fetch loop's persisted offsets, applied in turn as `update(typeName, {key: offset})`; `None` when an update raises. */
  function PersistOffsets(state: seq<(string, Json)>, typeName: string, key: string, offsets: seq<int>): Option<seq<(string, Json)>>
    decreases |offsets|
  {
    if offsets == [] then Some(state)
    else
      match UpdateSection(state, typeName, [(key, Int(offsets[0]))])
      case None => None
      case Some(s) => PersistOffsets(s, typeName, key, offsets[1..])
  }

  /**
   * Persisting offsets into a section that is a dict succeeds; the section's
   * `key` then holds the last offset persisted, and every other section is
   * as it was.
   */
  lemma {:induction false} PersistOffsetsLast(state: seq<(string, Json)>, typeName: string, key: string, offsets: seq<int>)
    requires SectionOf(state, typeName).Some?
    ensures var r := PersistOffsets(state, typeName, key, offsets);
      && r.Some? && SectionOf(r.value, typeName).Some?
      && (offsets == [] ==> r.value == state)
      && (offsets != [] ==> Lookup(SectionOf(r.value, typeName).value, key) == Some(Int(offsets[|offsets| - 1])))
      && forall other :: other != typeName ==> Lookup(r.value, other) == Lookup(state, other)
    decreases |offsets|
  {
    if offsets != [] {
      UpdateSectionField(state, typeName, key, Int(offsets[0]));
      var s := UpdateSection(state, typeName, [(key, Int(offsets[0]))]).value;
      PersistOffsetsLast(s, typeName, key, offsets[1..]);
      if |offsets| > 1 {
        assert offsets[1..][|offsets[1..]| - 1] == offsets[|offsets| - 1];
      }
    }
  }

  datatype StoreError =
    | NotADict             // the stored section is a truthy non-dict: `dict(...)` or `.update` raises
    | WriteFailed(error: FsError)

  class TypeStateStore {
    const fs: FileSystem
    const stateFile: Path
    const codec: Codec
    var state: seq<(string, Json)>

    /** `TypeStateStore(state_file)`: loads the file once. */
    constructor (fs: FileSystem, stateFile: Path, codec: Codec)
      ensures this.fs == fs && this.stateFile == stateFile && this.codec == codec
      ensures state == LoadState(fs.files, stateFile, codec)
    {
      this.fs := fs;
      this.stateFile := stateFile;
      this.codec := codec;
      state := LoadState(fs.files, stateFile, codec);
    }

    /**
     * `get(type_name)`: a copy of the section's fields (a value, so later
     * updates cannot reach it); an unseen or empty section gives the empty dict.
     */
    method Get(typeName: string) returns (r: Result<seq<(string, Json)>, StoreError>)
      ensures Lookup(state, typeName).None? ==> r == Ok([])
      ensures Lookup(state, typeName).Some? && Lookup(state, typeName).value.Obj? ==> r == Ok(Lookup(state, typeName).value.fields)
      ensures r.Err? <==> SectionOf(state, typeName).None?
    {
      var section := SectionOf(state, typeName);
      if section.None? {
        return Err(NotADict);
      }
      return Ok(section.value);
    }

    /**
     * `update(type_name, mapping)`: the section becomes its old fields
     * overwritten by `mapping`, the other sections stay as they were, and the
     * whole state is written atomically to the state file.
     */
    method Update(typeName: string, mapping: seq<(string, Json)>) returns (r: Result<(), StoreError>)
      modifies this, fs
      ensures SectionOf(old(state), typeName).None? ==> r == Err(NotADict) && state == old(state) && unchanged(fs)
      ensures SectionOf(old(state), typeName).Some? ==>
        state == Put(old(state), typeName, Obj(Merge(SectionOf(old(state), typeName).value, mapping)))
      ensures r.Ok? <==> SectionOf(old(state), typeName).Some? && old(AtomicWriteSucceeds(fs, stateFile))
      ensures r.Ok? ==> stateFile in fs.files && fs.files[stateFile] == codec.encode(Obj(state))
      ensures r.Ok? ==> fs.files == (old(fs.files) - {TmpPath(stateFile)})[stateFile := codec.encode(Obj(state))]
      ensures r.Ok? ==> fs.dirs == old(fs.dirs) + Ancestors(Parent(stateFile))
      ensures r.Err? ==> old(fs.dirs) <= fs.dirs
      ensures r.Err? ==> (fs.files == old(fs.files)
        || (stateFile != [] && fs.files == old(fs.files)[TmpPath(stateFile) := codec.encode(Obj(state))]))
    {
      var current := SectionOf(state, typeName);
      if current.None? {
        return Err(NotADict);
      }
      state := Put(state, typeName, Obj(Merge(current.value, mapping)));
      var written := AtomicWriteBytes(fs, stateFile, codec.encode(Obj(state)));
      if written.Err? {
        return Err(WriteFailed(written.error));
      }
      return Ok(());
    }
  }

  /**
   * What an update does to the sections: the updated section reads, key by
   * key, the mapping's value or else its old one; every other section is
   * unchanged.
   */
  lemma UpdateSections(state: seq<(string, Json)>, typeName: string, mapping: seq<(string, Json)>, other: string, key: string)
    requires SectionOf(state, typeName).Some? && UniqueKeys(mapping)
    ensures var s := Put(state, typeName, Obj(Merge(SectionOf(state, typeName).value, mapping)));
      && SectionOf(s, typeName).Some?
      && Lookup(SectionOf(s, typeName).value, key)
         == (if Lookup(mapping, key).Some? then Lookup(mapping, key) else Lookup(SectionOf(state, typeName).value, key))
      && (other != typeName ==> Lookup(s, other) == Lookup(state, other))
  {
    MergeLookup(SectionOf(state, typeName).value, mapping, key);
  }

  /**
   * A store opened on the file an update wrote sees the whole state that
   * update left, when the codec reads back what it wrote.
   */
  lemma ReloadAfterUpdate(files: map<Path, seq<byte>>, stateFile: Path, c: Codec, state: seq<(string, Json)>)
    requires stateFile in files && files[stateFile] == c.encode(Obj(state))
    requires RoundTrips(c, Obj(state))
    ensures LoadState(files, stateFile, c) == state
  {
  }
}
