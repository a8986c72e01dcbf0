/** The offline rebuild of tools/build_sharded_postliste.py: the yearly archive files and
    the legacy single file are read, deduplicated by `dokumentID` (the later occurrence
    wins), sorted newest first and packed into shards under `data/` with their index.
    Packing and the index are the store's own (`UtilsFiles.WriteShards`). */
module BuildSharded {
  import opened Json
  import opened Dicts
  import opened Dates
  import opened Strings
  import opened Storage
  import opened UtilsFiles

  const BUILD_DIR: string := "data"
  const ARCHIVE_DIR: string := Join(BUILD_DIR, "archive")
  const LEGACY_FILE: string := Join(BUILD_DIR, "postliste.json")

  /** Step 3 of `main`: `merged[did] = d` for every object with a truthy id; the flag is
      false when an id cannot be hashed, which the script does not catch. */
  method Dedupe(items: seq<Json>) returns (merged: Dict<Json, Doc>, ok: bool)
    ensures (merged, ok) == LoadItems(Empty(), items)
  {
    merged := Empty();
    for i := 0 to |items|
      invariant (merged, true) == LoadItems(Empty(), items[..i])
    {
      LoadItemsSnoc(Empty(), items, i);
      var d := items[i];
      if d.JObj? {
        var did := Get(d.fields, "dokumentID");
        if Truthy(did) {
          if !Hashable(did) {
            ghost var prefix := items[..i + 1];
            LoadItemsAbortStays(Empty(), prefix, items[i + 1..]);
            assert prefix + items[i + 1..] == items;
            return merged, false;
          }
          merged := Put(merged, did, d.fields);
        }
      }
    }
    assert items[..|items|] == items;
    ok := true;
  }

  /** The loop over the archive files: the sorted glob, each file contributing its list
      when it parses as one. */
  method ReadArchives(fs: FileSystem) returns (allDocs: seq<Json>, ghost archives: seq<string>)
    ensures StrictlyAscending(archives)
    ensures forall p :: p in archives <==> p in fs.files && GlobMatch(ARCHIVE_DIR, SHARD_PREFIX, ".json", p)
    ensures allDocs == Listed(fs.files, archives)
  {
    var paths := SortedGlob(fs.files, ARCHIVE_DIR, SHARD_PREFIX, ".json");
    archives := paths;
    allDocs := [];
    for i := 0 to |paths|
      invariant allDocs == Listed(fs.files, paths[..i])
    {
      assert paths[..i + 1][..i] == paths[..i];
      allDocs := allDocs + ShardItems(fs.files, paths[i]);
    }
    assert paths[..|paths|] == paths;
  }

  /** `main()`: the archive files in sorted order, then the legacy file, each contributing
      its list when it parses as one; then dedupe, sort, pack and index. An id that cannot
      be hashed raises TypeError before anything is written. */
  method BuildMain(fs: FileSystem, cal: Calendar, size: seq<Doc> -> nat)
    returns (raised: Option<PyError>, ghost archives: seq<string>)
    modifies fs
    ensures StrictlyAscending(archives)
    ensures forall p :: p in archives <==> p in old(fs.files) && GlobMatch(ARCHIVE_DIR, SHARD_PREFIX, ".json", p)
    ensures var all := Listed(old(fs.files), archives) + ShardItems(old(fs.files), LEGACY_FILE);
      && (!NoAbort(all) ==> raised == Some(TypeError) && fs.files == old(fs.files))
      && (NoAbort(all) ==>
            && raised == None
            && fs.files == SavedFiles(old(fs.files), BUILD_DIR,
                                      Pack(SortDocs(cal, Values(LoadItems(Empty(), all).0)), size)))
  {
    var allDocs;
    allDocs, archives := ReadArchives(fs);
    allDocs := allDocs + ShardItems(fs.files, LEGACY_FILE);
    var merged, ok := Dedupe(allDocs);
    if !ok {
      return Some(TypeError), archives;
    }
    var sorted := SortDocs(cal, Values(merged));
    var shards := WriteShards(fs, BUILD_DIR, sorted, size);
    ShardPathNames(BUILD_DIR, |Pack(sorted, size)|);
    WriteShardIndex(fs, BUILD_DIR, shards);
    raised := None;
  }

  /** A file that is missing, does not parse or is not a list contributes nothing. */
  lemma {:induction false} ListedSkipsNonList(files: map<string, Content>, a: seq<string>, p: string,
                                              b: seq<string>)
    requires ReadJson(files, p).None? || !ReadJson(files, p).value.JArr?
    ensures Listed(files, a + [p] + b) == Listed(files, a + b)
    decreases |b|
  {
    var x, y := a + [p] + b, a + b;
    if b == [] {
      assert x[..|x| - 1] == a && x[|x| - 1] == p && y == a;
      assert ShardItems(files, p) == [];
    } else {
      var n := |b|;
      var b0 := b[..n - 1];
      ListedSkipsNonList(files, a, p, b0);
      assert x[..|x| - 1] == a + [p] + b0 && x[|x| - 1] == b[n - 1];
      assert y[..|y| - 1] == a + b0 && y[|y| - 1] == b[n - 1];
    }
  }

  /** Every entry of a deduplicated dict is an object stored under its own truthy id. */
  predicate StoredUnderId(m: Dict<Json, Doc>) {
    forall k :: k in m.vals ==> Truthy(k) && Get(m.vals[k], "dokumentID") == k
  }

  lemma {:induction false} LoadItemsStoredUnderId(m: Dict<Json, Doc>, items: seq<Json>)
    requires m.Wf() && StoredUnderId(m)
    ensures StoredUnderId(LoadItems(m, items).0)
    decreases |items|
  {
    if items != [] {
      LoadItemsStoredUnderId(m, items[..|items| - 1]);
    }
  }

  /** The deduplicated records have truthy, pairwise distinct ids: non-objects and records
      without an id are gone, and no id occurs twice in the output. */
  lemma DedupedUnique(items: seq<Json>)
    ensures var docs := Values(LoadItems(Empty(), items).0);
      && (forall i :: 0 <= i < |docs| ==> Truthy(Get(docs[i], "dokumentID")))
      && (forall i, j :: 0 <= i < j < |docs| ==> Get(docs[i], "dokumentID") != Get(docs[j], "dokumentID"))
  {
    var m := LoadItems(Empty(), items).0;
    LoadItemsStoredUnderId(Empty(), items);
    var docs := Values(m);
    forall i | 0 <= i < |docs|
      ensures Get(docs[i], "dokumentID") == m.keys[i]
    {
    }
  }

  /** The shards written, concatenated, are the deduplicated records newest first. */
  lemma BuildShardsFlatten(cal: Calendar, size: seq<Doc> -> nat, items: seq<Json>)
    ensures var docs := Values(LoadItems(Empty(), items).0);
      && Flatten(Pack(SortDocs(cal, docs), size)) == SortDocs(cal, docs)
      && multiset(SortDocs(cal, docs)) == multiset(docs)
  {
    var docs := Values(LoadItems(Empty(), items).0);
    PackFlatten(SortDocs(cal, docs), size);
    SortedNewestFirst(cal, docs);
  }
}
