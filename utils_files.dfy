/** The record store of src/scrapers/utils_files.py: records are merged by
    `dokumentID`, sorted newest first, packed into size-bounded shard files
    `postliste_N.json` and listed in `postliste_index.json`; loading reads the shards
    back in index order. JSON byte length is the abstract `size` parameter. */
module UtilsFiles {
  import opened Json
  import opened Dicts
  import opened Dates
  import opened Sorting
  import opened Storage
  import opened Strings

  const DATA_DIR: string := "../../data"
  const SHARD_PREFIX: string := "postliste_"
  const SHARD_INDEX_NAME: string := "postliste_index.json"
  const SHARD_MAX_BYTES: nat := 50 * 1024 * 1024

  function ShardIndexFile(dir: string): string {
    Join(dir, SHARD_INDEX_NAME)
  }

  // ----------------------------------------------------------------
  // load_config
  // ----------------------------------------------------------------

  function DefaultConfig(): Json {
    JObj(map["start_page" := JNum(1), "max_pages" := JNum(100), "per_page" := JNum(100)])
  }

  /** `load_config(path)`: a missing file is created with the defaults and those are
      returned; an existing file is parsed, and one that does not parse raises. */
  method LoadConfig(fs: FileSystem, path: string) returns (r: Outcome<Json>)
    modifies fs
    ensures path !in old(fs.files) ==>
      (fs.files == old(fs.files)[path := Text(DefaultConfig())] && r == Ok(DefaultConfig()))
    ensures path in old(fs.files) ==> fs.files == old(fs.files)
    ensures path in old(fs.files) && old(fs.files)[path].Text? ==> r == Ok(old(fs.files)[path].value)
    ensures path in old(fs.files) && old(fs.files)[path].Corrupt? ==> r == Raised(ValueError)
  {
    if path !in fs.files {
      fs.files := fs.files[path := Text(DefaultConfig())];
    }
    match fs.files[path]
    case Text(v) => r := Ok(v);
    case Corrupt => r := Raised(ValueError);
  }

  // ----------------------------------------------------------------
  // sort_key and the newest-first sort
  // ----------------------------------------------------------------

  /** `sort_key`: a truthy `dato_iso` that `fromisoformat` accepts, else a truthy `dato`
      that `strptime("%d.%m.%Y")` accepts, else `date.min`; a parser that raises only
      moves on to the next candidate. */
  function SortKey(cal: Calendar, x: Doc): Date {
    var iso := Get(x, "dato_iso");
    var dato := Get(x, "dato");
    if Truthy(iso) && iso.JStr? && cal.fromIsoFormat(iso.s).Some? then cal.fromIsoFormat(iso.s).value
    else if Truthy(dato) && dato.JStr? && cal.strptimeDmy(dato.s).Some? then cal.strptimeDmy(dato.s).value
    else MinDate
  }

  function KeyRank(cal: Calendar): Doc -> int {
    x => Ord(SortKey(cal, x))
  }

  /** `sorted(all_docs, key=sort_key, reverse=True)`. */
  function SortDocs(cal: Calendar, docs: seq<Doc>): seq<Doc> {
    SortDesc(docs, KeyRank(cal))
  }

  predicate Undated(cal: Calendar, x: Doc) {
    SortKey(cal, x) == MinDate
  }

  /** The store's order: newest first, a permutation of the input, and the records without
      a usable date (key `date.min`) form the tail, in the order they had in the input. */
  lemma SortedNewestFirst(cal: Calendar, docs: seq<Doc>)
    ensures forall i, j :: 0 <= i < j < |SortDocs(cal, docs)| ==>
      !Before(SortKey(cal, SortDocs(cal, docs)[i]), SortKey(cal, SortDocs(cal, docs)[j]))
    ensures multiset(SortDocs(cal, docs)) == multiset(docs)
    ensures exists m ::
      (&& 0 <= m <= |docs|
       && (forall i :: 0 <= i < m ==> !Undated(cal, SortDocs(cal, docs)[i]))
       && SortDocs(cal, docs)[m..] == WithRank(docs, KeyRank(cal), Ord(MinDate)))
  {
    var out := SortDocs(cal, docs);
    SortDescSorted(docs, KeyRank(cal));
    SortDescStable(docs, KeyRank(cal), Ord(MinDate));
    var m := UndatedSuffix(cal, out);
    assert out[m..] == WithRank(docs, KeyRank(cal), Ord(MinDate));
  }

  /** In a newest-first sequence the records whose key is `date.min` form a suffix. */
  lemma {:induction false} UndatedSuffix(cal: Calendar, xs: seq<Doc>) returns (m: nat)
    requires SortedDesc(xs, KeyRank(cal))
    ensures m <= |xs|
    ensures forall i :: 0 <= i < m ==> !Undated(cal, xs[i])
    ensures xs[m..] == WithRank(xs, KeyRank(cal), Ord(MinDate))
    decreases |xs|
  {
    if xs == [] {
      m := 0;
    } else if Undated(cal, xs[0]) {
      m := 0;
      AllUndated(cal, xs);
    } else {
      var rest := UndatedSuffix(cal, xs[1..]);
      m := rest + 1;
      assert KeyRank(cal)(xs[0]) != Ord(MinDate) by {
        if KeyRank(cal)(xs[0]) == Ord(MinDate) {
          MinDateLeast(SortKey(cal, xs[0]));
        }
      }
      assert xs[m..] == xs[1..][rest..];
    }
  }

  lemma {:induction false} AllUndated(cal: Calendar, xs: seq<Doc>)
    requires SortedDesc(xs, KeyRank(cal))
    requires xs != [] && Undated(cal, xs[0])
    ensures WithRank(xs, KeyRank(cal), Ord(MinDate)) == xs
    decreases |xs|
  {
    var rank := KeyRank(cal);
    if |xs| > 1 {
      assert rank(xs[0]) >= rank(xs[1]);
      MinDateLeast(SortKey(cal, xs[1]));
      AllUndated(cal, xs[1..]);
    }
    assert xs == [xs[0]] + xs[1..];
  }

  // ----------------------------------------------------------------
  // The shard-packing loop
  // ----------------------------------------------------------------

  function Flatten<T>(ss: seq<seq<T>>): seq<T> {
    if ss == [] then [] else Flatten(ss[..|ss| - 1]) + ss[|ss| - 1]
  }

  /** The loop of `save_postliste_sharded`, from a state with `shards` closed and
      `current` open: append the next doc; if the list then serialises to more than the
      cap, close the list without that doc and reopen with the doc alone. */
  function PackLoop(docs: seq<Doc>, current: seq<Doc>, shards: seq<seq<Doc>>, size: seq<Doc> -> nat)
    : seq<seq<Doc>>
    decreases |docs|
  {
    if docs == [] then (if current != [] then shards + [current] else shards)
    else
      var c := current + [docs[0]];
      if size(c) > SHARD_MAX_BYTES then PackLoop(docs[1..], [docs[0]], shards + [current], size)
      else PackLoop(docs[1..], c, shards, size)
  }

  function Pack(docs: seq<Doc>, size: seq<Doc> -> nat): seq<seq<Doc>> {
    PackLoop(docs, [], [], size)
  }

  /** A shard serialises within the cap or holds a single doc. */
  predicate WithinCap(shard: seq<Doc>, size: seq<Doc> -> nat) {
    size(shard) <= SHARD_MAX_BYTES || |shard| == 1
  }

  /** Every shard is within the cap, except that the first may be empty; no later one is. */
  predicate ShardsBounded(shards: seq<seq<Doc>>, size: seq<Doc> -> nat) {
    && (forall i :: 0 <= i < |shards| ==> WithinCap(shards[i], size) || (i == 0 && shards[i] == []))
    && (forall i :: 0 < i < |shards| ==> shards[i] != [])
  }

  lemma {:induction false} FlattenAppend<T>(ss: seq<seq<T>>, s: seq<T>)
    ensures Flatten(ss + [s]) == Flatten(ss) + s
  {
    assert (ss + [s])[..|ss|] == ss;
  }

  lemma {:induction false} PackLoopFlatten(docs: seq<Doc>, current: seq<Doc>, shards: seq<seq<Doc>>,
                                           size: seq<Doc> -> nat)
    ensures Flatten(PackLoop(docs, current, shards, size)) == Flatten(shards) + current + docs
    decreases |docs|
  {
    if docs == [] {
      if current != [] {
        FlattenAppend(shards, current);
      }
    } else {
      var c := current + [docs[0]];
      assert docs == [docs[0]] + docs[1..];
      if size(c) > SHARD_MAX_BYTES {
        PackLoopFlatten(docs[1..], [docs[0]], shards + [current], size);
        FlattenAppend(shards, current);
      } else {
        PackLoopFlatten(docs[1..], c, shards, size);
      }
    }
  }

  /** No doc is dropped or duplicated: the shards, concatenated in creation order, are
      exactly the sorted input. */
  lemma PackFlatten(docs: seq<Doc>, size: seq<Doc> -> nat)
    ensures Flatten(Pack(docs, size)) == docs
  {
    PackLoopFlatten(docs, [], [], size);
  }

  /** What the loop keeps true: closed shards are bounded, an empty `current` only
      before anything was closed, and an open `current` within the cap. */
  predicate PackState(current: seq<Doc>, shards: seq<seq<Doc>>, size: seq<Doc> -> nat) {
    && ShardsBounded(shards, size)
    && (current == [] ==> shards == [])
    && (current == [] || WithinCap(current, size))
  }

  lemma {:induction false} PackLoopBounded(docs: seq<Doc>, current: seq<Doc>, shards: seq<seq<Doc>>,
                                           size: seq<Doc> -> nat)
    requires PackState(current, shards, size)
    ensures ShardsBounded(PackLoop(docs, current, shards, size), size)
    decreases |docs|
  {
    if docs != [] {
      var c := current + [docs[0]];
      if size(c) > SHARD_MAX_BYTES {
        PackLoopBounded(docs[1..], [docs[0]], shards + [current], size);
      } else {
        PackLoopBounded(docs[1..], c, shards, size);
      }
    }
  }

  lemma {:induction false} PackLoopGrows(docs: seq<Doc>, current: seq<Doc>, shards: seq<seq<Doc>>,
                                         size: seq<Doc> -> nat)
    requires current != []
    ensures |PackLoop(docs, current, shards, size)| > |shards|
    decreases |docs|
  {
    if docs != [] {
      var c := current + [docs[0]];
      if size(c) > SHARD_MAX_BYTES {
        PackLoopGrows(docs[1..], [docs[0]], shards + [current], size);
      } else {
        PackLoopGrows(docs[1..], c, shards, size);
      }
    }
  }

  /** Every shard is within the byte cap or holds a single doc. The first shard is empty
      exactly when the first doc alone exceeds the cap, and there are no shards at all
      exactly when there are no docs. */
  lemma PackBounded(docs: seq<Doc>, size: seq<Doc> -> nat)
    ensures ShardsBounded(Pack(docs, size), size)
    ensures Pack(docs, size) == [] <==> docs == []
    ensures (Pack(docs, size) != [] && Pack(docs, size)[0] == [])
        <==> (docs != [] && size([docs[0]]) > SHARD_MAX_BYTES)
  {
    PackLoopBounded(docs, [], [], size);
    if docs != [] {
      var c := [docs[0]];
      assert [] + [docs[0]] == c;
      if size(c) > SHARD_MAX_BYTES {
        var none: seq<seq<Doc>> := [];
        assert none + [[]] == [[]];
        assert Pack(docs, size) == PackLoop(docs[1..], c, none + [[]], size);
        PackLoopPrefix(docs[1..], c, [[]], size);
      } else {
        PackLoopGrows(docs[1..], c, [], size);
        PackLoopBounded(docs[1..], c, [], size);
        var r := Pack(docs, size);
        assert r == PackLoop(docs[1..], c, [], size);
        FirstShardOpen(docs[1..], c, size);
      }
    }
  }

  /** Started with an open, non-empty `current` and nothing closed, the first shard
      produced is non-empty. */
  lemma {:induction false} FirstShardOpen(docs: seq<Doc>, current: seq<Doc>, size: seq<Doc> -> nat)
    requires current != []
    ensures PackLoop(docs, current, [], size) != []
    ensures PackLoop(docs, current, [], size)[0] != []
    decreases |docs|
  {
    if docs != [] {
      var c := current + [docs[0]];
      if size(c) > SHARD_MAX_BYTES {
        var none: seq<seq<Doc>> := [];
        assert none + [current] == [current];
        assert PackLoop(docs, current, none, size) == PackLoop(docs[1..], [docs[0]], none + [current], size);
        PackLoopPrefix(docs[1..], [docs[0]], [current], size);
      } else {
        FirstShardOpen(docs[1..], c, size);
      }
    }
  }

  lemma {:induction false} PackLoopPrefix(docs: seq<Doc>, current: seq<Doc>, shards: seq<seq<Doc>>,
                                          size: seq<Doc> -> nat)
    ensures shards <= PackLoop(docs, current, shards, size)
    decreases |docs|
  {
    if docs != [] {
      var c := current + [docs[0]];
      if size(c) > SHARD_MAX_BYTES {
        PackLoopPrefix(docs[1..], [docs[0]], shards + [current], size);
      } else {
        PackLoopPrefix(docs[1..], c, shards, size);
      }
    }
  }

  // ----------------------------------------------------------------
  // Writing the shards and the index
  // ----------------------------------------------------------------

  /** `f"{SHARD_PREFIX}{idx}.json"`. */
  function ShardName(idx: nat): (s: string)
    ensures '/' !in s
  {
    var digits := NatToString(idx);
    assert forall i :: 0 <= i < |digits| ==> digits[i] != '/';
    SHARD_PREFIX + digits + ".json"
  }

  /** Distinct shard numbers give distinct file names. */
  lemma ShardNameInjective(a: nat, b: nat)
    requires ShardName(a) == ShardName(b)
    ensures a == b
  {
    var sa, sb := ShardName(a), ShardName(b);
    assert NatToString(a) == sa[10..|sa| - 5];
    assert NatToString(b) == sb[10..|sb| - 5];
    NatToStringInjective(a, b);
  }

  /** No shard is named like the index: the eleventh character is a digit, not 'i'. */
  lemma ShardNameNotIndex(a: nat)
    ensures ShardName(a) != SHARD_INDEX_NAME
  {
    assert ShardName(a)[10] == NatToString(a)[0];
  }

  /** `current_path(idx)`. */
  function ShardPath(dir: string, idx: nat): string {
    Join(dir, ShardName(idx))
  }

  lemma ShardPathDistinct(dir: string, a: nat, b: nat)
    ensures ShardPath(dir, a) == ShardPath(dir, b) ==> a == b
    ensures ShardPath(dir, a) != ShardIndexFile(dir)
  {
    if ShardPath(dir, a) == ShardPath(dir, b) {
      JoinInjective(dir, ShardName(a), ShardName(b));
      ShardNameInjective(a, b);
    }
    if ShardPath(dir, a) == ShardIndexFile(dir) {
      JoinInjective(dir, ShardName(a), SHARD_INDEX_NAME);
      ShardNameNotIndex(a);
    }
  }

  /** The paths of shards `1..n`, in creation order. */
  function ShardPaths(dir: string, n: nat): (r: seq<string>)
    ensures |r| == n
  {
    seq(n, (k: nat) => ShardPath(dir, k + 1))
  }

  /** The names of shards `1..n`, in creation order. */
  function ShardNames(n: nat): (r: seq<string>)
    ensures |r| == n
  {
    seq(n, (k: nat) => ShardName(k + 1))
  }

  function AsJson(docs: seq<Doc>): (r: seq<Json>)
    ensures |r| == |docs|
  {
    seq(|docs|, i requires 0 <= i < |docs| => JObj(docs[i]))
  }

  lemma AsJsonAppend(a: seq<Doc>, b: seq<Doc>)
    ensures AsJson(a + b) == AsJson(a) + AsJson(b)
  {
  }

  /** A shard file holds the JSON list of its records. */
  function ShardJson(shard: seq<Doc>): Json {
    JArr(AsJson(shard))
  }

  /** The index file holds the JSON list of the given names. */
  function IndexJson(names: seq<string>): Json {
    JArr(seq(|names|, k requires 0 <= k < |names| => JStr(names[k])))
  }

  /** The files after `shards` have been written into `dir` as shards `1..|shards|`. */
  function WrittenShards(files: map<string, Content>, dir: string, shards: seq<seq<Doc>>)
    : map<string, Content>
  {
    if shards == [] then files
    else
      WrittenShards(files, dir, shards[..|shards| - 1])
        [ShardPath(dir, |shards|) := Text(ShardJson(shards[|shards| - 1]))]
  }

  /** The files after a save: the shards, then the index naming them. */
  function SavedFiles(files: map<string, Content>, dir: string, shards: seq<seq<Doc>>)
    : map<string, Content>
  {
    WrittenShards(files, dir, shards)[ShardIndexFile(dir) := Text(IndexJson(ShardNames(|shards|)))]
  }

  /** Shard `k` holds the `k`-th list. */
  lemma {:induction false} WrittenShard(files: map<string, Content>, dir: string, shards: seq<seq<Doc>>, k: int)
    requires 1 <= k <= |shards|
    ensures ShardPath(dir, k) in WrittenShards(files, dir, shards)
    ensures WrittenShards(files, dir, shards)[ShardPath(dir, k)] == Text(ShardJson(shards[k - 1]))
    decreases |shards|
  {
    var n := |shards|;
    if k < n {
      var init := shards[..n - 1];
      WrittenShard(files, dir, init, k);
      ShardPathDistinct(dir, k, n);
      assert init[k - 1] == shards[k - 1];
    }
  }

  /** A file that is not one of the shards is untouched. */
  lemma {:induction false} WrittenOther(files: map<string, Content>, dir: string, shards: seq<seq<Doc>>, p: string)
    requires p !in ShardPaths(dir, |shards|)
    ensures p in WrittenShards(files, dir, shards) <==> p in files
    ensures p in files ==> WrittenShards(files, dir, shards)[p] == files[p]
    decreases |shards|
  {
    var n := |shards|;
    if n > 0 {
      assert ShardPaths(dir, n)[n - 1] == ShardPath(dir, n);
      assert ShardPaths(dir, n - 1) == ShardPaths(dir, n)[..n - 1];
      WrittenOther(files, dir, shards[..n - 1], p);
    }
  }

  lemma WrittenShardsContent(files: map<string, Content>, dir: string, shards: seq<seq<Doc>>)
    ensures forall k :: 1 <= k <= |shards| ==>
      && ShardPath(dir, k) in WrittenShards(files, dir, shards)
      && WrittenShards(files, dir, shards)[ShardPath(dir, k)] == Text(ShardJson(shards[k - 1]))
    ensures forall p :: p !in ShardPaths(dir, |shards|) ==>
      && (p in WrittenShards(files, dir, shards) <==> p in files)
      && (p in files ==> WrittenShards(files, dir, shards)[p] == files[p])
  {
    forall k | 1 <= k <= |shards|
      ensures ShardPath(dir, k) in WrittenShards(files, dir, shards)
      ensures WrittenShards(files, dir, shards)[ShardPath(dir, k)] == Text(ShardJson(shards[k - 1]))
    {
      WrittenShard(files, dir, shards, k);
    }
    forall p | p !in ShardPaths(dir, |shards|)
      ensures p in WrittenShards(files, dir, shards) <==> p in files
      ensures p in files ==> WrittenShards(files, dir, shards)[p] == files[p]
    {
      WrittenOther(files, dir, shards, p);
    }
  }

  /** After a save, shard `k` (numbered from 1) holds the `k`-th packed list, the index
      lists the shard names in creation order, and every other file, stale shards with
      higher numbers included, is as it was. */
  lemma SavedFilesContent(files: map<string, Content>, dir: string, shards: seq<seq<Doc>>)
    ensures ReadJson(SavedFiles(files, dir, shards), ShardIndexFile(dir))
         == Some(IndexJson(ShardNames(|shards|)))
    ensures forall k :: 1 <= k <= |shards| ==>
      ReadJson(SavedFiles(files, dir, shards), ShardPath(dir, k)) == Some(ShardJson(shards[k - 1]))
    ensures forall p :: p !in ShardPaths(dir, |shards|) && p != ShardIndexFile(dir) ==>
      && (p in SavedFiles(files, dir, shards) <==> p in files)
      && (p in files ==> SavedFiles(files, dir, shards)[p] == files[p])
  {
    WrittenShardsContent(files, dir, shards);
    forall k | 1 <= k <= |shards|
      ensures ShardPath(dir, k) != ShardIndexFile(dir)
    {
      ShardPathDistinct(dir, k, k);
    }
  }

  /** `_write_shard_index(paths)`: the index lists `p.name` for every path, in order. */
  method WriteShardIndex(fs: FileSystem, dir: string, paths: seq<string>)
    modifies fs
    ensures fs.files == old(fs.files)[ShardIndexFile(dir) :=
      Text(IndexJson(seq(|paths|, k requires 0 <= k < |paths| => BaseName(paths[k]))))]
  {
    var names := seq(|paths|, k requires 0 <= k < |paths| => BaseName(paths[k]));
    fs.AtomicWrite(ShardIndexFile(dir), IndexJson(names));
  }

  lemma ShardPathNames(dir: string, n: nat)
    ensures seq(n, k requires 0 <= k < n => BaseName(ShardPaths(dir, n)[k])) == ShardNames(n)
  {
    forall k | 0 <= k < n
      ensures BaseName(ShardPaths(dir, n)[k]) == ShardNames(n)[k]
    {
      BaseNameJoin(dir, ShardName(k + 1));
    }
  }

  /** The packing loop shared by `save_postliste_sharded` and the offline build: appends
      each doc to `current`, and when the list then serialises to more than
      `SHARD_MAX_BYTES` pops it, writes `current` as the next shard and reopens with the
      popped doc; a non-empty `current` is written last. */
  method WriteShards(fs: FileSystem, dir: string, sorted: seq<Doc>, size: seq<Doc> -> nat)
    returns (shards: seq<string>)
    modifies fs
    ensures fs.files == WrittenShards(old(fs.files), dir, Pack(sorted, size))
    ensures shards == ShardPaths(dir, |Pack(sorted, size)|)
  {
    shards := [];
    var current: seq<Doc> := [];
    var currentIndex: nat := 1;
    ghost var closed: seq<seq<Doc>> := [];
    for i := 0 to |sorted|
      invariant PackLoop(sorted[i..], current, closed, size) == Pack(sorted, size)
      invariant fs.files == WrittenShards(old(fs.files), dir, closed)
      invariant currentIndex == |closed| + 1
      invariant shards == ShardPaths(dir, |closed|)
    {
      var doc := sorted[i];
      assert sorted[i..][0] == doc && sorted[i..][1..] == sorted[i + 1..];
      current := current + [doc];
      if size(current) > SHARD_MAX_BYTES {
        var last := current[|current| - 1];
        current := current[..|current| - 1];
        var path := ShardPath(dir, currentIndex);
        WrittenShardsSnoc(old(fs.files), dir, closed, current);
        fs.AtomicWrite(path, ShardJson(current));
        shards := shards + [path];
        closed := closed + [current];
        currentIndex := currentIndex + 1;
        current := [last];
      }
    }
    if current != [] {
      var path := ShardPath(dir, currentIndex);
      WrittenShardsSnoc(old(fs.files), dir, closed, current);
      fs.AtomicWrite(path, ShardJson(current));
      shards := shards + [path];
      closed := closed + [current];
    }
  }

  /** Writing one more shard: the next numbered path gets its content and the shard list
      grows by that path. */
  lemma WrittenShardsSnoc(files: map<string, Content>, dir: string, closed: seq<seq<Doc>>, shard: seq<Doc>)
    ensures WrittenShards(files, dir, closed + [shard])
         == WrittenShards(files, dir, closed)[ShardPath(dir, |closed| + 1) := Text(ShardJson(shard))]
    ensures ShardPaths(dir, |closed| + 1) == ShardPaths(dir, |closed|) + [ShardPath(dir, |closed| + 1)]
  {
    assert (closed + [shard])[..|closed|] == closed;
  }

  /** `save_postliste_sharded(all_docs)`: sorts newest first, packs, writes the shards
      under DATA_DIR numbered from 1, then the index. */
  method SavePostlisteSharded(fs: FileSystem, cal: Calendar, size: seq<Doc> -> nat, allDocs: seq<Doc>)
    modifies fs
    ensures fs.files == SavedFiles(old(fs.files), DATA_DIR, Pack(SortDocs(cal, allDocs), size))
  {
    var sorted := SortDocs(cal, allDocs);
    var shards := WriteShards(fs, DATA_DIR, sorted, size);
    ShardPathNames(DATA_DIR, |Pack(sorted, size)|);
    WriteShardIndex(fs, DATA_DIR, shards);
  }

  // ----------------------------------------------------------------
  // merge_and_save_sharded
  // ----------------------------------------------------------------

  /** `d["dokumentID"]` used as a dictionary key: KeyError when the key is missing,
      TypeError when the value is a list or an object. */
  function DocId(d: Doc): (r: Outcome<Json>)
    ensures r.Ok? <==> "dokumentID" in d && Hashable(d["dokumentID"])
    ensures r.Ok? ==> r.value == d["dokumentID"]
    ensures "dokumentID" !in d ==> r == Raised(KeyError)
  {
    if "dokumentID" !in d then Raised(KeyError)
    else if !Hashable(d["dokumentID"]) then Raised(TypeError)
    else Ok(d["dokumentID"])
  }

  predicate HasId(d: Doc) {
    DocId(d).Ok?
  }

  function Id(d: Doc): Json
    requires HasId(d)
  {
    DocId(d).value
  }

  predicate AllHaveIds(docs: seq<Doc>) {
    forall i :: 0 <= i < |docs| ==> HasId(docs[i])
  }

  /** The loop `updated[d["dokumentID"]] = d` over `new_docs`, from a copy of the existing
      dict; the first doc without a usable id raises. */
  function MergeDocs(existing: Dict<Json, Doc>, docs: seq<Doc>): (r: Outcome<Dict<Json, Doc>>)
    requires existing.Wf()
    ensures r.Ok? ==> r.value.Wf()
    ensures r.Ok? <==> AllHaveIds(docs)
  {
    if docs == [] then Ok(existing)
    else
      AllHaveIdsSnoc(docs);
      match MergeDocs(existing, docs[..|docs| - 1])
      case Raised(e) => Raised(e)
      case Ok(u) =>
        match DocId(docs[|docs| - 1])
        case Raised(e) => Raised(e)
        case Ok(id) => Ok(Put(u, id, docs[|docs| - 1]))
  }

  /** The map the batch writes: each id to the last doc carrying it. */
  function LastMap(docs: seq<Doc>): map<Json, Doc>
    requires AllHaveIds(docs)
  {
    if docs == [] then map[]
    else LastMap(docs[..|docs| - 1])[Id(docs[|docs| - 1]) := docs[|docs| - 1]]
  }

  /** The ids of the batch not among `keys`, once each, in order of first occurrence. */
  function NewIds(keys: seq<Json>, docs: seq<Doc>): seq<Json>
    requires AllHaveIds(docs)
  {
    if docs == [] then []
    else
      var p := NewIds(keys, docs[..|docs| - 1]);
      var k := Id(docs[|docs| - 1]);
      if k in keys || k in p then p else p + [k]
  }

  /** When it fails, the error raised is that of the first doc without a usable id. */
  lemma {:induction false} MergeFirstError(existing: Dict<Json, Doc>, docs: seq<Doc>, i: nat)
    requires existing.Wf()
    requires i < |docs| && AllHaveIds(docs[..i]) && !HasId(docs[i])
    ensures MergeDocs(existing, docs) == Raised(DocId(docs[i]).error)
    decreases |docs|
  {
    var n := |docs|;
    var init := docs[..n - 1];
    if i < n - 1 {
      assert init[..i] == docs[..i] && init[i] == docs[i];
      MergeFirstError(existing, init, i);
    } else {
      assert init == docs[..i];
    }
  }

  /** The merged dict in closed form: the existing keys, then the batch's new ids in order
      of first occurrence; the existing values overridden by the batch's last docs. */
  lemma {:induction false} MergeClosedForm(existing: Dict<Json, Doc>, docs: seq<Doc>)
    requires existing.Wf() && AllHaveIds(docs)
    ensures MergeDocs(existing, docs)
         == Ok(Dict(existing.keys + NewIds(existing.keys, docs), existing.vals + LastMap(docs)))
    decreases |docs|
  {
    if docs != [] {
      AllHaveIdsSnoc(docs);
      MergeClosedForm(existing, docs[..|docs| - 1]);
      MergeStepClosed(existing, docs);
    } else {
      assert existing.keys + [] == existing.keys;
      assert existing.vals + map[] == existing.vals;
    }
  }

  /** A batch has ids throughout when the docs before its last one do and the last one
      does. */
  lemma AllHaveIdsSnoc(docs: seq<Doc>)
    requires docs != []
    ensures AllHaveIds(docs) <==> AllHaveIds(docs[..|docs| - 1]) && HasId(docs[|docs| - 1])
  {
    var init := docs[..|docs| - 1];
    assert forall i :: 0 <= i < |init| ==> init[i] == docs[i];
  }

  /** The closed form of a merge carries over to one more doc. */
  lemma MergeStepClosed(existing: Dict<Json, Doc>, docs: seq<Doc>)
    requires existing.Wf() && docs != [] && AllHaveIds(docs) && AllHaveIds(docs[..|docs| - 1])
    requires MergeDocs(existing, docs[..|docs| - 1])
          == Ok(Dict(existing.keys + NewIds(existing.keys, docs[..|docs| - 1]), existing.vals + LastMap(docs[..|docs| - 1])))
    ensures MergeDocs(existing, docs)
         == Ok(Dict(existing.keys + NewIds(existing.keys, docs), existing.vals + LastMap(docs)))
  {
    var init := docs[..|docs| - 1];
    var k, d := Id(docs[|docs| - 1]), docs[|docs| - 1];
    var p, L := NewIds(existing.keys, init), LastMap(init);
    PutClosed(existing, p, L, k, d);
  }

  /** One `Put` on the closed form of a merge. */
  lemma PutClosed(existing: Dict<Json, Doc>, p: seq<Json>, L: map<Json, Doc>, k: Json, d: Doc)
    requires existing.Wf() && Dict(existing.keys + p, existing.vals + L).Wf()
    ensures Put(Dict(existing.keys + p, existing.vals + L), k, d)
         == Dict(existing.keys + (if k in existing.keys || k in p then p else p + [k]), existing.vals + L[k := d])
  {
    var K := existing.keys;
    var u := Dict(K + p, existing.vals + L);
    assert k in u.vals <==> k in K + p;
    OverrideUpdate(existing.vals, L, k, d);
    if !(k in K || k in p) {
      assert (K + p) + [k] == K + (p + [k]);
    }
  }

  lemma OverrideUpdate<K, V>(a: map<K, V>, b: map<K, V>, k: K, v: V)
    ensures (a + b)[k := v] == a + b[k := v]
  {
  }

  lemma {:induction false} LastMapKeys(docs: seq<Doc>)
    requires AllHaveIds(docs)
    ensures forall k :: k in LastMap(docs) <==> exists i :: 0 <= i < |docs| && Id(docs[i]) == k
    decreases |docs|
  {
    if docs != [] {
      var n := |docs|;
      LastMapKeys(docs[..n - 1]);
      forall k | k in LastMap(docs)
        ensures exists i :: 0 <= i < |docs| && Id(docs[i]) == k
      {
        if k != Id(docs[n - 1]) {
          var init := docs[..n - 1];
          assert k in LastMap(init);
          var i :| 0 <= i < |init| && Id(init[i]) == k;
          assert docs[i] == init[i];
        }
      }
      forall k, i | 0 <= i < |docs| && Id(docs[i]) == k
        ensures k in LastMap(docs)
      {
        if i < n - 1 {
          assert Id(docs[..n - 1][i]) == k;
        }
      }
    }
  }

  /** Each id maps to the last doc of the batch that carries it. */
  lemma {:induction false} LastMapLast(docs: seq<Doc>, i: nat)
    requires AllHaveIds(docs) && i < |docs|
    requires forall j :: i < j < |docs| ==> Id(docs[j]) != Id(docs[i])
    ensures Id(docs[i]) in LastMap(docs) && LastMap(docs)[Id(docs[i])] == docs[i]
    decreases |docs|
  {
    var n := |docs|;
    if i < n - 1 {
      LastMapLast(docs[..n - 1], i);
    }
  }

  lemma {:induction false} NewIdsCover(keys: seq<Json>, docs: seq<Doc>)
    requires AllHaveIds(docs)
    ensures forall i :: 0 <= i < |docs| ==> Id(docs[i]) in keys || Id(docs[i]) in NewIds(keys, docs)
    decreases |docs|
  {
    if docs != [] {
      var n := |docs|;
      NewIdsCover(keys, docs[..n - 1]);
      forall i | 0 <= i < n - 1
        ensures Id(docs[i]) in keys || Id(docs[i]) in NewIds(keys, docs)
      {
        assert docs[..n - 1][i] == docs[i];
      }
    }
  }

  lemma {:induction false} NewIdsCovered(keys: seq<Json>, docs: seq<Doc>)
    requires AllHaveIds(docs)
    requires forall i :: 0 <= i < |docs| ==> Id(docs[i]) in keys
    ensures NewIds(keys, docs) == []
    decreases |docs|
  {
    if docs != [] {
      NewIdsCovered(keys, docs[..|docs| - 1]);
    }
  }

  /** After a merge every id of the batch maps to the last doc that carries it. */
  lemma MergeLastWins(existing: Dict<Json, Doc>, docs: seq<Doc>, i: nat)
    requires existing.Wf() && i < |docs|
    requires forall j :: i < j < |docs| ==> DocId(docs[j]) != DocId(docs[i])
    ensures MergeDocs(existing, docs).Ok? ==>
      && Id(docs[i]) in MergeDocs(existing, docs).value.vals
      && MergeDocs(existing, docs).value.vals[Id(docs[i])] == docs[i]
  {
    if AllHaveIds(docs) {
      MergeClosedForm(existing, docs);
      LastMapLast(docs, i);
    }
  }

  /** Ids only in the existing dict keep their value; the merged keys are the existing
      keys, in their order, followed by the new ids. */
  lemma MergeUntouched(existing: Dict<Json, Doc>, docs: seq<Doc>)
    requires existing.Wf()
    ensures MergeDocs(existing, docs).Ok? ==>
      && (forall k :: k in existing.vals && (forall i :: 0 <= i < |docs| ==> Id(docs[i]) != k) ==>
            (k in MergeDocs(existing, docs).value.vals && MergeDocs(existing, docs).value.vals[k] == existing.vals[k]))
      && existing.keys <= MergeDocs(existing, docs).value.keys
  {
    if AllHaveIds(docs) {
      MergeClosedForm(existing, docs);
      var u := MergeDocs(existing, docs).value;
      forall k | k in existing.vals && (forall i :: 0 <= i < |docs| ==> Id(docs[i]) != k)
        ensures k in u.vals && u.vals[k] == existing.vals[k]
      {
        LastMapKeys(docs);
        assert k !in LastMap(docs);
      }
      assert u.keys == existing.keys + NewIds(existing.keys, docs);
    }
  }

  /** The merged dict holds exactly the existing ids and the ids of the batch. */
  lemma MergeKeys(existing: Dict<Json, Doc>, docs: seq<Doc>)
    requires existing.Wf()
    ensures MergeDocs(existing, docs).Ok? ==>
      forall k :: k in MergeDocs(existing, docs).value.vals
        <==> k in existing.vals || exists i :: 0 <= i < |docs| && Id(docs[i]) == k
  {
    if AllHaveIds(docs) {
      MergeClosedForm(existing, docs);
      LastMapKeys(docs);
    }
  }

  /** Merging the same batch a second time changes nothing. */
  lemma MergeIdempotent(existing: Dict<Json, Doc>, docs: seq<Doc>)
    requires existing.Wf()
    ensures MergeDocs(existing, docs).Ok? ==>
      MergeDocs(MergeDocs(existing, docs).value, docs) == MergeDocs(existing, docs)
  {
    if AllHaveIds(docs) {
      MergeClosedForm(existing, docs);
      var u := MergeDocs(existing, docs).value;
      MergeClosedForm(u, docs);
      NewIdsCover(existing.keys, docs);
      NewIdsCovered(u.keys, docs);
      assert u.keys + [] == u.keys;
      assert u.vals + LastMap(docs) == u.vals;
    }
  }

  /** The loop of `merge_and_save_sharded`: `updated = dict(existing_dict)`, then
      `updated[d["dokumentID"]] = d` for each new doc, stopping at the first that raises. */
  method MergeInto(existing: Dict<Json, Doc>, newDocs: seq<Doc>) returns (r: Outcome<Dict<Json, Doc>>)
    requires existing.Wf()
    ensures r == MergeDocs(existing, newDocs)
  {
    var updated := existing;
    for i := 0 to |newDocs|
      invariant MergeDocs(existing, newDocs[..i]) == Ok(updated)
    {
      var id := DocId(newDocs[i]);
      if id.Raised? {
        MergeFirstError(existing, newDocs, i);
        return Raised(id.error);
      }
      MergeSnoc(existing, newDocs, i);
      updated := Put(updated, id.value, newDocs[i]);
    }
    assert newDocs[..|newDocs|] == newDocs;
    r := Ok(updated);
  }

  /** One more doc of the batch: its id is put into the merge of the docs before it. */
  lemma MergeSnoc(existing: Dict<Json, Doc>, docs: seq<Doc>, i: nat)
    requires existing.Wf() && i < |docs| && MergeDocs(existing, docs[..i]).Ok? && DocId(docs[i]).Ok?
    ensures MergeDocs(existing, docs[..i + 1]) == Ok(Put(MergeDocs(existing, docs[..i]).value, DocId(docs[i]).value, docs[i]))
  {
    assert docs[..i + 1][..i] == docs[..i] && docs[..i + 1][i] == docs[i];
  }

  /** `merge_and_save_sharded(existing_dict, new_docs)`: on success the values of the
      merged dict, in key order, are saved; when a doc has no usable id the exception
      escapes before anything is written. */
  method MergeAndSaveSharded(fs: FileSystem, cal: Calendar, size: seq<Doc> -> nat,
                             existing: Dict<Json, Doc>, newDocs: seq<Doc>)
    returns (raised: Option<PyError>)
    requires existing.Wf()
    modifies fs
    ensures MergeDocs(existing, newDocs).Raised? ==>
      raised == Some(MergeDocs(existing, newDocs).error) && fs.files == old(fs.files)
    ensures MergeDocs(existing, newDocs).Ok? ==>
      && raised == None
      && fs.files == SavedFiles(old(fs.files), DATA_DIR,
                                Pack(SortDocs(cal, Values(MergeDocs(existing, newDocs).value)), size))
  {
    var updated := MergeInto(existing, newDocs);
    if updated.Raised? {
      return Some(updated.error);
    }
    SavePostlisteSharded(fs, cal, size, Values(updated.value));
    raised := None;
  }

  // ----------------------------------------------------------------
  // _list_shard_paths and load_all_postliste
  // ----------------------------------------------------------------

  /** The names `_list_shard_paths` takes from a parsed index: what iterating it gives
      (a list's items, a string's characters, an object's keys), provided each is a
      string. A value that cannot be iterated, or a list with an item that is not a
      string, makes the iteration or `DATA_DIR / name` raise, and the glob is used
      instead. */
  function IndexNames(v: Json): (r: Option<seq<string>>)
    ensures v.JArr? ==> (r.Some? <==> forall k :: 0 <= k < |v.items| ==> v.items[k].JStr?)
    ensures v.JArr? && r.Some? ==> r.value == seq(|v.items|, k requires 0 <= k < |v.items| => v.items[k].s)
    ensures v.JStr? ==> r.Some? && |r.value| == |v.s| && forall k :: 0 <= k < |v.s| ==> r.value[k] == [v.s[k]]
    ensures v.JObj? ==> r.Some? && |r.value| == |v.fields| && forall n :: n in r.value <==> n in v.fields
    ensures !v.JArr? && !v.JStr? && !v.JObj? ==> r.None?
  {
    match PyIter(v)
    case None => None
    case Some(items) =>
      if forall k :: 0 <= k < |items| ==> items[k].JStr? then
        var names := seq(|items|, k requires 0 <= k < |items| => items[k].s);
        forall n
          ensures n in names <==> JStr(n) in items
        {
          if JStr(n) in items {
            var k :| 0 <= k < |items| && items[k] == JStr(n);
            assert names[k] == n;
          }
        }
        Some(names)
      else None
  }

  lemma IndexNamesRoundTrip(names: seq<string>)
    ensures IndexNames(IndexJson(names)) == Some(names)
  {
    var a := IndexJson(names).items;
    assert seq(|a|, k requires 0 <= k < |a| => a[k].s) == names;
  }

  function JoinAll(dir: string, names: seq<string>): (r: seq<string>)
    ensures |r| == |names|
  {
    seq(|names|, k requires 0 <= k < |names| => Join(dir, names[k]))
  }

  /** The shard paths the index gives, when it exists and can be used. */
  function IndexedPaths(files: map<string, Content>, dir: string): Option<seq<string>> {
    match ReadJson(files, ShardIndexFile(dir))
    case Some(v) => (match IndexNames(v) case Some(names) => Some(JoinAll(dir, names)) case None => None)
    case None => None
  }

  /** `_list_shard_paths()`: the index order when the index is readable, else the shard
      files `postliste_*.json` in DATA_DIR in sorted order. */
  method ListShardPaths(fs: FileSystem) returns (paths: seq<string>)
    ensures IndexedPaths(fs.files, DATA_DIR).Some? ==> paths == IndexedPaths(fs.files, DATA_DIR).value
    ensures IndexedPaths(fs.files, DATA_DIR).None? ==>
      && StrictlyAscending(paths)
      && forall p :: p in paths <==> p in fs.files && GlobMatch(DATA_DIR, SHARD_PREFIX, ".json", p)
  {
    var indexed := IndexedPaths(fs.files, DATA_DIR);
    if indexed.Some? {
      return indexed.value;
    }
    paths := SortedGlob(fs.files, DATA_DIR, SHARD_PREFIX, ".json");
  }

  /** N of a path `<dir>/postliste_N.json` whose N is decimal digits. */
  function ShardNumber(dir: string, path: string): Option<nat> {
    if GlobMatch(dir, SHARD_PREFIX, ".json", path) then
      var name := path[|dir| + 1..];
      var mid := name[|SHARD_PREFIX|..|name| - 5];
      if mid != [] && forall i :: 0 <= i < |mid| ==> '0' <= mid[i] <= '9' then Some(DigitsValue(mid)) else None
    else None
  }

  /** The rank that orders paths by ascending N, paths without a number first. */
  function NumberRank(dir: string): string -> int {
    p => match ShardNumber(dir, p) case Some(n) => -(n as int) - 1 case None => 0
  }

  /** The order the docstring of `_list_shard_paths` promises for the glob: by N. */
  function ByShardNumber(dir: string, paths: seq<string>): seq<string> {
    SortDesc(paths, NumberRank(dir))
  }

  /** Ordering by N keeps every path, puts the paths without a number first and the
      numbered ones in ascending order of N. */
  lemma ByShardNumberOrdered(dir: string, paths: seq<string>)
    ensures multiset(ByShardNumber(dir, paths)) == multiset(paths)
    ensures var r := ByShardNumber(dir, paths);
      forall i, j :: 0 <= i < j < |r| && ShardNumber(dir, r[i]).Some? ==>
        ShardNumber(dir, r[j]).Some? && ShardNumber(dir, r[i]).value <= ShardNumber(dir, r[j]).value
  {
    var r := ByShardNumber(dir, paths);
    SortDescSorted(paths, NumberRank(dir));
    forall i, j | 0 <= i < j < |r| && ShardNumber(dir, r[i]).Some?
      ensures ShardNumber(dir, r[j]).Some? && ShardNumber(dir, r[i]).value <= ShardNumber(dir, r[j]).value
    {
      assert NumberRank(dir)(r[i]) >= NumberRank(dir)(r[j]);
    }
  }

  /** `_list_shard_paths` as its docstring describes it: the index order when the index
      is readable, else the shard files ordered by N. */
  method ListShardPathsByNumber(fs: FileSystem) returns (paths: seq<string>)
    ensures IndexedPaths(fs.files, DATA_DIR).Some? ==> paths == IndexedPaths(fs.files, DATA_DIR).value
    ensures IndexedPaths(fs.files, DATA_DIR).None? ==>
      && (forall p :: p in paths <==> p in fs.files && GlobMatch(DATA_DIR, SHARD_PREFIX, ".json", p))
      && (forall i, j :: 0 <= i < j < |paths| ==> paths[i] != paths[j])
      && forall i, j :: 0 <= i < j < |paths| && ShardNumber(DATA_DIR, paths[i]).Some? ==>
           ShardNumber(DATA_DIR, paths[j]).Some?
           && ShardNumber(DATA_DIR, paths[i]).value <= ShardNumber(DATA_DIR, paths[j]).value
  {
    var indexed := IndexedPaths(fs.files, DATA_DIR);
    if indexed.Some? {
      return indexed.value;
    }
    var globbed := SortedGlob(fs.files, DATA_DIR, SHARD_PREFIX, ".json");
    paths := ByShardNumber(DATA_DIR, globbed);
    ByShardNumberOrdered(DATA_DIR, globbed);
    DistinctOfAscending(globbed);
    PermutationDistinct(globbed, paths);
    assert forall p :: p in paths <==> p in multiset(paths);
  }

  /** The path of shard `n` matches the glob and its N reads back as `n`. */
  lemma ShardPathNumbered(dir: string, n: nat)
    ensures GlobMatch(dir, SHARD_PREFIX, ".json", ShardPath(dir, n))
    ensures ShardNumber(dir, ShardPath(dir, n)) == Some(n)
  {
    var name := ShardName(n);
    var path := ShardPath(dir, n);
    assert path[..|dir| + 1] == dir + "/";
    assert path[|dir| + 1..] == name;
    assert name[..|SHARD_PREFIX|] == SHARD_PREFIX;
    assert name[|name| - 5..] == ".json";
    assert name[|SHARD_PREFIX|..|name| - 5] == NatToString(n);
    DigitsOfNat(n);
  }

  lemma ShardTenBeforeTwo(dir: string)
    ensures StrLt(ShardPath(dir, 10), ShardPath(dir, 2))
  {
    assert NatToString(10) == "10" && NatToString(2) == "2";
    var common := dir + "/" + SHARD_PREFIX;
    assert ShardPath(dir, 2) == common + "2.json" && ShardPath(dir, 10) == common + "10.json";
    assert StrLt("10.json", "2.json");
    StrLtPrefix(common, "10.json", "2.json");
  }

  /** The glob fallback as written sorts in code-point order, so with shards 2 and 10
      on disk and no usable index, the sorted glob `r` lists shard 10 before shard 2. */
  lemma GlobOrderNotByNumber(dir: string, r: seq<string>)
    requires var files := map[ShardPath(dir, 2) := Text(JArr([])), ShardPath(dir, 10) := Text(JArr([]))];
      && StrictlyAscending(r)
      && forall p :: p in r <==> p in files && GlobMatch(dir, SHARD_PREFIX, ".json", p)
    ensures ShardNumber(dir, ShardPath(dir, 2)) == Some(2) && ShardNumber(dir, ShardPath(dir, 10)) == Some(10)
    ensures r == [ShardPath(dir, 10), ShardPath(dir, 2)]
  {
    ShardPathNumbered(dir, 2);
    ShardPathNumbered(dir, 10);
    ShardTenBeforeTwo(dir);
    AscendingUnique([ShardPath(dir, 10), ShardPath(dir, 2)], r);
  }

  lemma DistinctOfAscending(r: seq<string>)
    requires StrictlyAscending(r)
    ensures forall i, j :: 0 <= i < j < |r| ==> r[i] != r[j]
  {
    forall i, j | 0 <= i < j < |r|
      ensures r[i] != r[j]
    {
      StrLtIrreflexive(r[i]);
    }
  }

  /** A permutation of a sequence without repeats has no repeats. */
  lemma PermutationDistinct(a: seq<string>, b: seq<string>)
    requires multiset(a) == multiset(b)
    requires forall i, j :: 0 <= i < j < |a| ==> a[i] != a[j]
    ensures forall i, j :: 0 <= i < j < |b| ==> b[i] != b[j]
  {
    forall i, j | 0 <= i < j < |b|
      ensures b[i] != b[j]
    {
      DistinctCount(a, b[i]);
      var pre := b[..j];
      assert b == pre + [b[j]] + b[j + 1..];
      assert pre[i] == b[i];
      assert multiset(pre)[b[i]] >= 1;
      assert multiset(b)[b[j]] >= multiset(pre)[b[j]] + 1;
    }
  }

  lemma {:induction false} DistinctCount(a: seq<string>, x: string)
    requires forall i, j :: 0 <= i < j < |a| ==> a[i] != a[j]
    ensures multiset(a)[x] <= 1
    decreases |a|
  {
    if a != [] {
      var t := a[1..];
      DistinctCount(t, x);
      assert a == [a[0]] + t;
      if a[0] == x {
        assert x !in t;
      }
    }
  }

  /** A shard item that goes into the map: an object with a truthy `dokumentID`. */
  predicate Keyed(v: Json) {
    v.JObj? && Truthy(Get(v.fields, "dokumentID"))
  }

  function ItemId(v: Json): Json
    requires v.JObj?
  {
    Get(v.fields, "dokumentID")
  }

  /** No keyed item has an id that cannot be hashed, so `merged[did] = d` never raises. */
  predicate NoAbort(items: seq<Json>) {
    forall i :: 0 <= i < |items| && Keyed(items[i]) ==> Hashable(ItemId(items[i]))
  }

  /** The inner loop of `load_all_postliste` over one shard's items, from the dict `m`:
      items that are not objects or whose `dokumentID` is falsy are passed over and keyed
      items are stored under their id. A keyed item whose id cannot be hashed raises: the
      rest of the shard is abandoned, the entries stored so far stay, and the flag is false. */
  function LoadItems(m: Dict<Json, Doc>, items: seq<Json>): (r: (Dict<Json, Doc>, bool))
    requires m.Wf()
    ensures r.0.Wf()
    ensures r.1 <==> NoAbort(items)
  {
    if items == [] then (m, true)
    else
      var (m', ok) := LoadItems(m, items[..|items| - 1]);
      var d := items[|items| - 1];
      if !ok || !Keyed(d) then (m', ok)
      else if !Hashable(ItemId(d)) then (m', false)
      else (Put(m', ItemId(d), d.fields), true)
  }

  /** The outer loop of `load_all_postliste`: every path whose file parses as a list is
      loaded into the map and, unless loading raised, its items extend the flat list; a
      missing file, one that does not parse and one that is not a list are passed over. */
  function LoadShards(files: map<string, Content>, paths: seq<string>): (r: (Dict<Json, Doc>, seq<Json>))
    ensures r.0.Wf()
  {
    if paths == [] then (Empty(), [])
    else
      var (m, all) := LoadShards(files, paths[..|paths| - 1]);
      match ReadJson(files, paths[|paths| - 1])
      case Some(JArr(items)) =>
        var (m', ok) := LoadItems(m, items);
        (m', if ok then all + items else all)
      case _ => (m, all)
  }

  /** The items of a shard file: its list, or nothing. */
  function ShardItems(files: map<string, Content>, path: string): seq<Json> {
    match ReadJson(files, path)
    case Some(JArr(items)) => items
    case _ => []
  }

  /** The items of all list-shaped shards, concatenated in path order. */
  function Listed(files: map<string, Content>, paths: seq<string>): seq<Json> {
    if paths == [] then [] else Listed(files, paths[..|paths| - 1]) + ShardItems(files, paths[|paths| - 1])
  }

  /** `load_all_postliste()`: lists the shard paths, then loads them in that order. */
  method LoadAllPostliste(fs: FileSystem) returns (merged: Dict<Json, Doc>, allList: seq<Json>, ghost paths: seq<string>)
    ensures IndexedPaths(fs.files, DATA_DIR).Some? ==> paths == IndexedPaths(fs.files, DATA_DIR).value
    ensures IndexedPaths(fs.files, DATA_DIR).None? ==>
      && StrictlyAscending(paths)
      && forall p :: p in paths <==> p in fs.files && GlobMatch(DATA_DIR, SHARD_PREFIX, ".json", p)
    ensures (merged, allList) == LoadShards(fs.files, paths)
    ensures IndexedPaths(fs.files, DATA_DIR).Some? ==>
      (merged, allList) == LoadShards(fs.files, IndexedPaths(fs.files, DATA_DIR).value)
  {
    var shards := ListShardPaths(fs);
    paths := shards;
    merged, allList := Empty(), [];
    for i := 0 to |shards|
      invariant (merged, allList) == LoadShards(fs.files, shards[..i])
    {
      LoadShardsSnoc(fs.files, shards, i);
      var data := ReadJson(fs.files, shards[i]);
      if data.Some? && data.value.JArr? {
        var items := data.value.items;
        var ok;
        merged, ok := LoadShardItems(merged, items);
        if ok {
          allList := allList + items;
        }
      }
    }
    assert shards[..|shards|] == shards;
  }

  /** One more path: a list-shaped shard is loaded into the map and, unless loading
      raised, its items extend the flat list; any other path changes nothing. */
  lemma LoadShardsSnoc(files: map<string, Content>, paths: seq<string>, i: nat)
    requires i < |paths|
    ensures var (m, all) := LoadShards(files, paths[..i]);
      var data := ReadJson(files, paths[i]);
      && (!(data.Some? && data.value.JArr?) ==> LoadShards(files, paths[..i + 1]) == (m, all))
      && (data.Some? && data.value.JArr? ==>
            var (m', ok) := LoadItems(m, data.value.items);
            LoadShards(files, paths[..i + 1]) == (m', if ok then all + data.value.items else all))
  {
    assert paths[..i + 1][..i] == paths[..i] && paths[..i + 1][i] == paths[i];
  }

  /** The inner loop of `load_all_postliste` over the items of one shard: stops at the
      first keyed item whose id cannot be hashed; `ok` is false when it stopped there. */
  method LoadShardItems(start: Dict<Json, Doc>, items: seq<Json>) returns (merged: Dict<Json, Doc>, ok: bool)
    requires start.Wf()
    ensures (merged, ok) == LoadItems(start, items)
  {
    merged := start;
    var raised := false;
    var j := 0;
    while j < |items| && !raised
      invariant 0 <= j <= |items|
      invariant merged.Wf()
      invariant (merged, !raised) == LoadItems(start, items[..j])
    {
      LoadItemsSnoc(start, items, j);
      var d := items[j];
      if d.JObj? {
        var did := Get(d.fields, "dokumentID");
        if Truthy(did) {
          if Hashable(did) {
            merged := Put(merged, did, d.fields);
          } else {
            raised := true;
          }
        }
      }
      j := j + 1;
    }
    if raised {
      LoadItemsAbortStays(start, items[..j], items[j..]);
      assert items[..j] + items[j..] == items;
    } else {
      assert items[..j] == items;
    }
    ok := !raised;
  }

  /** One more item: a keyed item with a hashable id is put into the dict, any other item
      is passed over, and once loading has raised nothing changes. */
  lemma LoadItemsSnoc(m: Dict<Json, Doc>, items: seq<Json>, j: nat)
    requires m.Wf() && j < |items|
    ensures var (m', ok) := LoadItems(m, items[..j]);
      var d := items[j];
      LoadItems(m, items[..j + 1])
        == if !ok || !Keyed(d) then (m', ok)
           else if !Hashable(ItemId(d)) then (m', false)
           else (Put(m', ItemId(d), d.fields), true)
  {
    assert items[..j + 1][..j] == items[..j] && items[..j + 1][j] == items[j];
  }

  lemma {:induction false} LoadItemsAbortStays(m: Dict<Json, Doc>, a: seq<Json>, b: seq<Json>)
    requires m.Wf() && !LoadItems(m, a).1
    ensures LoadItems(m, a + b) == LoadItems(m, a)
    decreases |b|
  {
    if b == [] {
      assert a + b == a;
    } else {
      LoadItemsAbortStays(m, a, b[..|b| - 1]);
      assert (a + b)[..|a + b| - 1] == a + b[..|b| - 1];
    }
  }

  lemma {:induction false} LoadItemsAppend(m: Dict<Json, Doc>, a: seq<Json>, b: seq<Json>)
    requires m.Wf() && NoAbort(a)
    ensures LoadItems(m, a + b) == LoadItems(LoadItems(m, a).0, b)
    decreases |b|
  {
    if b == [] {
      assert a + b == a;
    } else {
      LoadItemsAppend(m, a, b[..|b| - 1]);
      assert (a + b)[..|a + b| - 1] == a + b[..|b| - 1];
    }
  }

  /** The map holds the existing ids and exactly the ids of keyed items. */
  lemma {:induction false} LoadItemsKeys(m: Dict<Json, Doc>, items: seq<Json>)
    requires m.Wf() && NoAbort(items)
    ensures forall k :: k in LoadItems(m, items).0.vals <==>
      (k in m.vals || exists i :: 0 <= i < |items| && Keyed(items[i]) && ItemId(items[i]) == k)
    decreases |items|
  {
    if items != [] {
      var n := |items|;
      var init := items[..n - 1];
      LoadItemsKeys(m, init);
      forall k | k in LoadItems(m, items).0.vals && k !in m.vals
        ensures exists i :: 0 <= i < n && Keyed(items[i]) && ItemId(items[i]) == k
      {
        if k in LoadItems(m, init).0.vals {
          var i :| 0 <= i < |init| && Keyed(init[i]) && ItemId(init[i]) == k;
          assert items[i] == init[i];
        }
      }
      forall k, i | 0 <= i < n && Keyed(items[i]) && ItemId(items[i]) == k
        ensures k in LoadItems(m, items).0.vals
      {
        if i < n - 1 {
          assert init[i] == items[i];
        }
      }
    }
  }

  /** A keyed item that no later keyed item shares its id with is the stored value. */
  lemma {:induction false} LoadItemsLastWins(m: Dict<Json, Doc>, items: seq<Json>, i: nat)
    requires m.Wf() && NoAbort(items)
    requires i < |items| && Keyed(items[i])
    requires forall j :: i < j < |items| && Keyed(items[j]) ==> ItemId(items[j]) != ItemId(items[i])
    ensures ItemId(items[i]) in LoadItems(m, items).0.vals
    ensures LoadItems(m, items).0.vals[ItemId(items[i])] == items[i].fields
    decreases |items|
  {
    var n := |items|;
    var init := items[..n - 1];
    assert items == init + [items[n - 1]];
    NoAbortSplit(init, [items[n - 1]]);
    if i < n - 1 {
      assert init[i] == items[i];
      assert forall j :: i < j < |init| ==> init[j] == items[j];
      LoadItemsLastWins(m, init, i);
    }
  }

  lemma NoAbortSplit(a: seq<Json>, b: seq<Json>)
    requires NoAbort(a + b)
    ensures NoAbort(a) && NoAbort(b)
  {
    forall i | 0 <= i < |a| && Keyed(a[i])
      ensures Hashable(ItemId(a[i]))
    {
      assert (a + b)[i] == a[i];
    }
    forall i | 0 <= i < |b| && Keyed(b[i])
      ensures Hashable(ItemId(b[i]))
    {
      assert (a + b)[|a| + i] == b[i];
    }
  }

  /** When no id raises, loading is one pass over the concatenated list shards: the flat
      list is that concatenation, non-object and id-less items included, and the map is
      built from it, so the later shard wins on a shared id. */
  lemma {:induction false} LoadShardsListed(files: map<string, Content>, paths: seq<string>)
    requires NoAbort(Listed(files, paths))
    ensures LoadShards(files, paths).1 == Listed(files, paths)
    ensures LoadShards(files, paths).0 == LoadItems(Empty(), Listed(files, paths)).0
    decreases |paths|
  {
    if paths != [] {
      var n := |paths|;
      var init := paths[..n - 1];
      var items := ShardItems(files, paths[n - 1]);
      NoAbortSplit(Listed(files, init), items);
      LoadShardsListed(files, init);
      LoadItemsAppend(Empty(), Listed(files, init), items);
      if !(ReadJson(files, paths[n - 1]).Some? && ReadJson(files, paths[n - 1]).value.JArr?) {
        assert Listed(files, init) + items == Listed(files, init);
      }
    }
  }

  /** A missing file, one that does not parse and one that is not a list leave the load
      as if the path were not listed at all. */
  lemma {:induction false} LoadSkipsNonList(files: map<string, Content>, a: seq<string>, p: string,
                                            b: seq<string>)
    requires ReadJson(files, p).None? || !ReadJson(files, p).value.JArr?
    ensures LoadShards(files, a + [p] + b) == LoadShards(files, a + b)
    decreases |b|
  {
    if b == [] {
      assert (a + [p] + b)[..|a|] == a && a + b == a;
    } else {
      var n := |b|;
      LoadSkipsNonList(files, a, p, b[..n - 1]);
      assert (a + [p] + b)[..|a| + n] == a + [p] + b[..n - 1];
      assert (a + b)[..|a| + n - 1] == a + b[..n - 1];
    }
  }

  lemma {:induction false} ListedSaved(files: map<string, Content>, dir: string, shards: seq<seq<Doc>>, k: nat)
    requires k <= |shards|
    requires forall j :: 1 <= j <= |shards| ==> ReadJson(files, ShardPath(dir, j)) == Some(ShardJson(shards[j - 1]))
    ensures Listed(files, ShardPaths(dir, k)) == AsJson(Flatten(shards[..k]))
    decreases k
  {
    if k > 0 {
      ListedSaved(files, dir, shards, k - 1);
      assert ShardPaths(dir, k)[..k - 1] == ShardPaths(dir, k - 1);
      assert shards[..k][..k - 1] == shards[..k - 1];
      AsJsonAppend(Flatten(shards[..k - 1]), shards[k - 1]);
    }
  }

  /** Saving and then loading gives back the sorted records as the flat list, read through
      the index in shard order, provided no keyed record has an id that cannot be hashed. */
  lemma SaveLoadRoundTrip(files: map<string, Content>, cal: Calendar, size: seq<Doc> -> nat, docs: seq<Doc>)
    requires NoAbort(AsJson(docs))
    ensures var shards := Pack(SortDocs(cal, docs), size);
      var saved := SavedFiles(files, DATA_DIR, shards);
      && IndexedPaths(saved, DATA_DIR) == Some(ShardPaths(DATA_DIR, |shards|))
      && LoadShards(saved, ShardPaths(DATA_DIR, |shards|)).1 == AsJson(SortDocs(cal, docs))
      && LoadShards(saved, ShardPaths(DATA_DIR, |shards|)).0 == LoadItems(Empty(), AsJson(SortDocs(cal, docs))).0
  {
    var sorted := SortDocs(cal, docs);
    var shards := Pack(sorted, size);
    var saved := SavedFiles(files, DATA_DIR, shards);
    SavedFilesContent(files, DATA_DIR, shards);
    IndexNamesRoundTrip(ShardNames(|shards|));
    assert JoinAll(DATA_DIR, ShardNames(|shards|)) == ShardPaths(DATA_DIR, |shards|);
    ListedSaved(saved, DATA_DIR, shards, |shards|);
    assert shards[..|shards|] == shards;
    PackFlatten(sorted, size);
    NoAbortSorted(cal, docs);
    LoadShardsListed(saved, ShardPaths(DATA_DIR, |shards|));
  }

  /** Sorting only reorders the records, so none of them gains an unhashable id. */
  lemma NoAbortSorted(cal: Calendar, docs: seq<Doc>)
    requires NoAbort(AsJson(docs))
    ensures NoAbort(AsJson(SortDocs(cal, docs)))
  {
    var sorted := SortDocs(cal, docs);
    SortedNewestFirst(cal, docs);
    forall i | 0 <= i < |sorted| && Keyed(AsJson(sorted)[i])
      ensures Hashable(ItemId(AsJson(sorted)[i]))
    {
      assert sorted[i] in multiset(docs);
      var j :| 0 <= j < |docs| && docs[j] == sorted[i];
      assert AsJson(docs)[j] == AsJson(sorted)[i];
    }
  }
}
