/** The data loaders of web/java/endringer_data.js. `fetch(url)` stands for
    `(await fetch(url)).json()`: the parsed body, or None when the body is not JSON and
    the promise rejects with a SyntaxError. The time value of `new Date(v)` is the
    abstract `stamp(v)`, None when it is NaN. */
module EndringerData {
  import opened Json
  import opened Sorting

  const CHANGES_URL := "../data/changes.json"
  const INDEX_URL := "../data/postliste_index.json"

  /** The template literal `../data/${filename}`. */
  function ShardUrl(filename: Json): string {
    "../data/" + JsString(filename)
  }

  // ----------------------------------------------------------------
  // loadChanges
  // ----------------------------------------------------------------

  /** The time value of `new Date(e.tidspunkt)`, with None for NaN, the time value of an
      Invalid Date. `stamp(v)` is what the engine makes of a `tidspunkt` value `v`; an
      event that is not an object or has no `tidspunkt` gives `new Date(undefined)`,
      which is always NaN. */
  function TimeOf(stamp: Json -> Option<int>, e: Json): Option<int> {
    if e.JObj? && "tidspunkt" in e.fields then stamp(e.fields["tidspunkt"]) else None
  }

  /** Every event has a time value that is not NaN, so the comparator is consistent. */
  predicate AllStamped(stamp: Json -> Option<int>, events: seq<Json>) {
    forall i :: 0 <= i < |events| ==> TimeOf(stamp, events[i]).Some?
  }

  /** The sort rank of a stamped event: its time value. */
  function Rank(stamp: Json -> Option<int>): Json -> int {
    e => match TimeOf(stamp, e) case Some(t) => t case None => 0
  }

  /** An engine's `Array.prototype.sort` under a comparator that is not consistent: the
      order is the engine's own, but the result still holds the same events. */
  ghost predicate Rearranges(arrange: seq<Json> -> seq<Json>) {
    forall xs :: multiset(arrange(xs)) == multiset(xs)
  }

  /** `data.sort((a, b) => new Date(b.tidspunkt) - new Date(a.tidspunkt))`. A value that
      is not an array has no `sort` method; with two or more events the comparator reads
      `tidspunkt` of every one of them, which raises on a null. When every event has a
      time value the events are ordered newest first, and events with the same time keep
      their order (the sort is stable). When some event's time value is NaN, the
      comparator returns NaN, which the sort reads as 0, so the comparator is not
      consistent and the order is the engine's `arrange`. */
  function SortChanges(data: Json, stamp: Json -> Option<int>, arrange: seq<Json> -> seq<Json>)
    : (r: Outcome<seq<Json>>)
    requires Rearranges(arrange)
    ensures r.Ok? <==> data.JArr? && (|data.items| < 2 || JNull !in data.items)
    ensures r.Ok? ==> multiset(r.value) == multiset(data.items)
    ensures r.Ok? && AllStamped(stamp, data.items) ==> SortedDesc(r.value, Rank(stamp))
    ensures r.Ok? && AllStamped(stamp, data.items) ==>
      forall k :: WithRank(r.value, Rank(stamp), k) == WithRank(data.items, Rank(stamp), k)
    ensures r.Ok? && !AllStamped(stamp, data.items) && |data.items| >= 2 ==> r.value == arrange(data.items)
  {
    if !data.JArr? then Raised(TypeError)
    else if |data.items| >= 2 && JNull in data.items then Raised(TypeError)
    else if !AllStamped(stamp, data.items) then
      if |data.items| < 2 then Ok(data.items) else Ok(arrange(data.items))
    else
      var sorted := SortDesc(data.items, Rank(stamp));
      SortDescSorted(data.items, Rank(stamp));
      forall k ensures WithRank(sorted, Rank(stamp), k) == WithRank(data.items, Rank(stamp), k) {
        SortDescStable(data.items, Rank(stamp), k);
      }
      Ok(sorted)
  }

  /** `loadChanges()`. */
  function LoadChanges(fetch: string -> Option<Json>, stamp: Json -> Option<int>, arrange: seq<Json> -> seq<Json>)
    : (r: Outcome<seq<Json>>)
    requires Rearranges(arrange)
    ensures fetch(CHANGES_URL).None? ==> r == Raised(SyntaxError)
    ensures fetch(CHANGES_URL).Some? ==> r == SortChanges(fetch(CHANGES_URL).value, stamp, arrange)
  {
    match fetch(CHANGES_URL)
    case None => Raised(SyntaxError)
    case Some(data) => SortChanges(data, stamp, arrange)
  }

  // ----------------------------------------------------------------
  // loadPostliste
  // ----------------------------------------------------------------

  /** `Promise.all(shardFiles.map(...))`: the parsed shards in index order, or None when
      any of them fails to parse. */
  function FetchAll(fetch: string -> Option<Json>, names: seq<Json>): (r: Option<seq<Json>>)
    ensures r.Some? <==> forall i :: 0 <= i < |names| ==> fetch(ShardUrl(names[i])).Some?
    ensures r.Some? ==> |r.value| == |names|
    ensures r.Some? ==> forall i :: 0 <= i < |names| ==> r.value[i] == fetch(ShardUrl(names[i])).value
    decreases |names|
  {
    if names == [] then Some([])
    else
      var init := names[..|names| - 1];
      match (FetchAll(fetch, init), fetch(ShardUrl(names[|names| - 1])))
      case (Some(xs), Some(x)) => Some(xs + [x])
      case _ =>
        assert forall i :: 0 <= i < |init| ==> init[i] == names[i];
        None
  }

  /** What `flat()` takes from one element: an array's items, or the element itself. */
  function Spread(v: Json): seq<Json> {
    if v.JArr? then v.items else [v]
  }

  /** `Array.prototype.flat()` with its default depth of one. */
  function Flat(shards: seq<Json>): seq<Json>
    decreases |shards|
  {
    if shards == [] then [] else Flat(shards[..|shards| - 1]) + Spread(shards[|shards| - 1])
  }

  /** Flattening keeps the order of the shards: the entries of earlier shards come first. */
  lemma {:induction false} FlatAppend(a: seq<Json>, b: seq<Json>)
    ensures Flat(a + b) == Flat(a) + Flat(b)
    decreases |b|
  {
    if b == [] {
      assert a + b == a;
    } else {
      var b0 := b[..|b| - 1];
      assert (a + b)[..|a + b| - 1] == a + b0;
      FlatAppend(a, b0);
    }
  }

  /** An entry of the flat list comes from an array shard or is a non-array shard, and
      every entry of every shard is in it. */
  lemma {:induction false} FlatMembers(shards: seq<Json>, x: Json)
    ensures x in Flat(shards) <==> exists i :: 0 <= i < |shards| && x in Spread(shards[i])
    decreases |shards|
  {
    if shards != [] {
      var init := shards[..|shards| - 1];
      FlatMembers(init, x);
      if x in Spread(shards[|shards| - 1]) {
        assert x in Flat(shards);
      }
      if exists i :: 0 <= i < |init| && x in Spread(init[i]) {
        var i :| 0 <= i < |init| && x in Spread(init[i]);
        assert init[i] == shards[i];
      }
      if exists i :: 0 <= i < |shards| && x in Spread(shards[i]) {
        var i :| 0 <= i < |shards| && x in Spread(shards[i]);
        if i < |init| {
          assert init[i] == shards[i];
        }
      }
    }
  }

  /** The key of `map[d.dokumentID] = d`: reading a property of null raises (None); an
      object's `dokumentID` becomes a string by `String(...)`; an object without one, and
      any other value, gives `undefined`, the key "undefined". */
  function EntryKey(d: Json): Option<string> {
    match d
    case JNull => None
    case JObj(f) => Some(if "dokumentID" in f then JsString(f["dokumentID"]) else "undefined")
    case _ => Some("undefined")
  }

  /** The key whose assignment on a plain object calls the setter inherited from
      `Object.prototype` instead of creating a property. */
  const PROTO_KEY: string := "__proto__"

  /** The object `{}` the loop fills: its own properties, and the entry the inherited
      `__proto__` setter made its prototype (None while it is still `Object.prototype`). */
  datatype IdTable = IdTable(own: map<string, Json>, proto: Option<Json>)

  /** `map[k] = d` on the table: an own property, except under "__proto__", where the
      setter replaces the prototype and no property is created. */
  function Assign(t: IdTable, k: string, d: Json): (r: IdTable)
    ensures k != PROTO_KEY ==> r.own == t.own[k := d] && r.proto == t.proto
    ensures k == PROTO_KEY ==> r.own == t.own && r.proto == Some(d)
  {
    if k == PROTO_KEY then IdTable(t.own, Some(d)) else IdTable(t.own[k := d], t.proto)
  }

  /** The table the `for (const d of allEntries)` loop builds, or the TypeError a null
      entry raises. */
  function IdMap(entries: seq<Json>): (r: Outcome<IdTable>)
    ensures r.Ok? <==> JNull !in entries
    ensures r.Raised? ==> r.error == TypeError
    decreases |entries|
  {
    if entries == [] then Ok(IdTable(map[], None))
    else
      var init := entries[..|entries| - 1];
      var d := entries[|entries| - 1];
      assert entries == init + [d];
      match IdMap(init)
      case Raised(e) => Raised(e)
      case Ok(m) =>
        match EntryKey(d)
        case None => Raised(TypeError)
        case Some(k) => Ok(Assign(m, k, d))
  }

  /** The table's own keys are exactly the entries' keys other than "__proto__", and its
      prototype is replaced exactly when some entry's key is "__proto__". */
  lemma {:induction false} IdMapKeys(entries: seq<Json>, k: string)
    requires JNull !in entries
    ensures k in IdMap(entries).value.own <==>
      k != PROTO_KEY && exists i :: 0 <= i < |entries| && EntryKey(entries[i]) == Some(k)
    ensures IdMap(entries).value.proto.Some? <==>
      exists i :: 0 <= i < |entries| && EntryKey(entries[i]) == Some(PROTO_KEY)
    decreases |entries|
  {
    if entries != [] {
      var init := entries[..|entries| - 1];
      assert forall i :: 0 <= i < |init| ==> init[i] == entries[i];
      assert JNull !in init;
      IdMapKeys(init, k);
    }
  }

  /** A later entry overwrites an earlier one with the same key: each key other than
      "__proto__" maps to the last entry carrying it, and the last entry keyed
      "__proto__" is the prototype. */
  lemma {:induction false} IdMapLastWins(entries: seq<Json>, i: int, k: string)
    requires JNull !in entries
    requires 0 <= i < |entries| && EntryKey(entries[i]) == Some(k)
    requires forall j :: i < j < |entries| ==> EntryKey(entries[j]) != Some(k)
    ensures k != PROTO_KEY ==> k in IdMap(entries).value.own && IdMap(entries).value.own[k] == entries[i]
    ensures k == PROTO_KEY ==> IdMap(entries).value.proto == Some(entries[i])
    decreases |entries|
  {
    var init := entries[..|entries| - 1];
    assert forall j :: 0 <= j < |init| ==> init[j] == entries[j];
    assert JNull !in init;
    if i < |entries| - 1 {
      IdMapLastWins(init, i, k);
    }
  }

  /** Objects without a `dokumentID` are not filtered out: they all collide under
      "undefined", where the last of them remains. */
  lemma IdlessCollide(entries: seq<Json>)
    requires |entries| >= 1
    requires forall i :: 0 <= i < |entries| ==> entries[i].JObj? && "dokumentID" !in entries[i].fields
    ensures IdMap(entries) == Ok(IdTable(map["undefined" := entries[|entries| - 1]], None))
  {
    assert JNull !in entries;
    var m := IdMap(entries).value;
    forall k | k in m.own
      ensures k == "undefined"
    {
      IdMapKeys(entries, k);
    }
    IdMapKeys(entries, "undefined");
    IdMapLastWins(entries, |entries| - 1, "undefined");
    assert m.own == map["undefined" := entries[|entries| - 1]];
  }

  /** An entry whose `dokumentID` is "__proto__" creates no key: it becomes the
      prototype and the own keys stay as they were. */
  lemma ProtoEntryNoKey(entries: seq<Json>, d: Json)
    requires JNull !in entries
    requires d.JObj? && d.fields == map["dokumentID" := JStr(PROTO_KEY)]
    ensures IdMap(entries + [d]).Ok?
    ensures IdMap(entries + [d]).value.own == IdMap(entries).value.own
    ensures IdMap(entries + [d]).value.proto == Some(d)
  {
    var all := entries + [d];
    assert all[..|all| - 1] == entries;
    assert EntryKey(d) == Some(PROTO_KEY);
  }

  /** `loadPostliste()`: the index must be an array (it is mapped over), every shard must
      parse, and the flattened entries are put into the table by id, in index order. */
  method LoadPostliste(fetch: string -> Option<Json>) returns (r: Outcome<IdTable>)
    ensures fetch(INDEX_URL).None? ==> r == Raised(SyntaxError)
    ensures fetch(INDEX_URL).Some? && !fetch(INDEX_URL).value.JArr? ==> r == Raised(TypeError)
    ensures fetch(INDEX_URL).Some? && fetch(INDEX_URL).value.JArr? ==>
      var shards := FetchAll(fetch, fetch(INDEX_URL).value.items);
      (shards.None? ==> r == Raised(SyntaxError)) && (shards.Some? ==> r == IdMap(Flat(shards.value)))
  {
    var index := fetch(INDEX_URL);
    if index.None? {
      return Raised(SyntaxError);
    }
    var shardFiles := index.value;
    if !shardFiles.JArr? {
      return Raised(TypeError);
    }
    var shardData := FetchAll(fetch, shardFiles.items);
    if shardData.None? {
      return Raised(SyntaxError);
    }
    var allEntries := Flat(shardData.value);
    var m := IdTable(map[], None);
    var i := 0;
    while i < |allEntries|
      invariant 0 <= i <= |allEntries|
      invariant IdMap(allEntries[..i]) == Ok(m)
    {
      var d := allEntries[i];
      assert allEntries[..i + 1][..i] == allEntries[..i] && allEntries[..i + 1][i] == d;
      if d == JNull {
        assert IdMap(allEntries[..i + 1]).Raised?;
        IdMapPrefixRaised(allEntries, i + 1);
        return Raised(TypeError);
      }
      m := Assign(m, EntryKey(d).value, d);
      i := i + 1;
    }
    assert allEntries[..i] == allEntries;
    r := Ok(m);
  }

  /** Once a prefix raises, so does the whole list. */
  lemma IdMapPrefixRaised(entries: seq<Json>, n: int)
    requires 0 <= n <= |entries| && IdMap(entries[..n]).Raised?
    ensures IdMap(entries) == Raised(TypeError)
  {
    assert JNull in entries[..n];
    var i :| 0 <= i < n && entries[..n][i] == JNull;
    assert entries[i] == JNull;
  }
}
