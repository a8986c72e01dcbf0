/** The duplicate report of tools/find_duplicates.py: the positions of every truthy
    `dokumentID` are collected in a dict (first-seen order), and the ids seen more than once
    are the duplicates. */
module FindDuplicates {
  import opened Json
  import opened Dicts
  import opened Storage

  const POSTLISTE_PATH: string := "data/postliste.json"

  /** `entry.get("dokumentID")` when truthy: None for a falsy id, AttributeError on an entry
      that is not a dict, TypeError on an id that cannot be a key. */
  function EntryId(v: Json): Outcome<Option<Json>> {
    if !v.JObj? then Raised(AttributeError)
    else
      var id := Get(v.fields, "dokumentID");
      if !Truthy(id) then Ok(None)
      else if !Hashable(id) then Raised(TypeError)
      else Ok(Some(id))
  }

  predicate Readable(data: seq<Json>) {
    forall i :: 0 <= i < |data| ==> EntryId(data[i]).Ok?
  }

  /** `seen[dokid].append(idx)` over `enumerate(data)`. */
  function Group(data: seq<Json>): (r: Outcome<Dict<Json, seq<nat>>>)
    ensures r.Ok? ==> r.value.Wf()
    ensures r.Ok? <==> Readable(data)
  {
    if data == [] then Ok(Empty())
    else
      var idx := |data| - 1;
      match Group(data[..idx])
      case Raised(e) => Raised(e)
      case Ok(seen) =>
        match EntryId(data[idx])
        case Raised(e) => Raised(e)
        case Ok(None) => Ok(seen)
        case Ok(Some(id)) => Ok(Put(seen, id, (if id in seen.vals then seen.vals[id] else []) + [idx]))
  }

  /** The positions whose truthy id is `k`, in ascending order. */
  function IndicesOf(data: seq<Json>, k: Json): seq<nat>
    requires Readable(data)
  {
    if data == [] then []
    else IndicesOf(data[..|data| - 1], k) + (if EntryId(data[|data| - 1]) == Ok(Some(k)) then [|data| - 1] else [])
  }

  lemma {:induction false} IndicesOfExact(data: seq<Json>, k: Json)
    requires Readable(data)
    ensures forall i, j :: 0 <= i < j < |IndicesOf(data, k)| ==> IndicesOf(data, k)[i] < IndicesOf(data, k)[j]
    ensures forall i :: 0 <= i < |data| ==> (i in IndicesOf(data, k) <==> EntryId(data[i]) == Ok(Some(k)))
    ensures forall i :: 0 <= i < |IndicesOf(data, k)| ==> IndicesOf(data, k)[i] < |data|
    decreases |data|
  {
    if data != [] {
      var n := |data|;
      var init := data[..n - 1];
      IndicesOfExact(init, k);
      forall i | 0 <= i < n - 1
        ensures i in IndicesOf(data, k) <==> EntryId(data[i]) == Ok(Some(k))
      {
        assert init[i] == data[i];
      }
    }
  }

  /** `seen` maps each truthy id to the ascending list of positions where it occurs, and
      holds no other key; entries with an empty or missing id are ignored. */
  lemma {:induction false} GroupIsIndices(data: seq<Json>)
    requires Readable(data)
    ensures forall k :: k in Group(data).value.vals <==> IndicesOf(data, k) != []
    ensures forall k :: k in Group(data).value.vals ==> Group(data).value.vals[k] == IndicesOf(data, k)
    decreases |data|
  {
    if data != [] {
      GroupIsIndices(data[..|data| - 1]);
    }
  }

  /** `{k: v for k, v in seen.items() if len(v) > 1}`, in the order of `seen`. */
  function Duplicates(seen: Dict<Json, seq<nat>>): (r: Dict<Json, seq<nat>>)
    requires seen.Wf()
    ensures r.Wf()
  {
    var keys := Keep(seen.keys, seen.vals);
    KeepExact(seen.keys, seen.vals);
    Dict(keys, map k | k in seen.vals && |seen.vals[k]| > 1 :: seen.vals[k])
  }

  function Keep(keys: seq<Json>, vals: map<Json, seq<nat>>): seq<Json> {
    if keys == [] then []
    else Keep(keys[..|keys| - 1], vals)
         + (var k := keys[|keys| - 1]; if k in vals && |vals[k]| > 1 then [k] else [])
  }

  lemma {:induction false} KeepExact(keys: seq<Json>, vals: map<Json, seq<nat>>)
    requires forall i, j :: 0 <= i < j < |keys| ==> keys[i] != keys[j]
    ensures forall k :: k in Keep(keys, vals) <==> k in keys && k in vals && |vals[k]| > 1
    ensures forall i, j :: 0 <= i < j < |Keep(keys, vals)| ==> Keep(keys, vals)[i] != Keep(keys, vals)[j]
    decreases |keys|
  {
    if keys != [] {
      KeepExact(keys[..|keys| - 1], vals);
    }
  }

  /** `main()`: parses the file, runs the grouping loop over what iterating the parsed
      value gives and keeps the ids seen more than once. A missing file raises OSError,
      text that does not parse ValueError, a value that cannot be iterated TypeError, and
      the loop the error of the first unreadable entry. */
  method FindDuplicatesMain(files: map<string, Content>) returns (r: Outcome<Dict<Json, seq<nat>>>)
    ensures match ReadJson(files, POSTLISTE_PATH)
      case None => r == Raised(if POSTLISTE_PATH in files then ValueError else OSError)
      case Some(v) =>
        if PyIter(v).None? then r == Raised(TypeError)
        else
          && (Readable(PyIter(v).value) <==> r.Ok?)
          && (r.Ok? ==> r.value == Duplicates(Group(PyIter(v).value).value))
          && (r.Raised? ==> r == Group(PyIter(v).value))
  {
    if POSTLISTE_PATH !in files {
      return Raised(OSError);
    }
    var content := files[POSTLISTE_PATH];
    if content.Corrupt? {
      return Raised(ValueError);
    }
    var entries := PyIter(content.value);
    if entries.None? {
      return Raised(TypeError);
    }
    var data := entries.value;
    var seen: Dict<Json, seq<nat>> := Empty();
    for idx := 0 to |data|
      invariant Group(data[..idx]) == Ok(seen)
    {
      assert data[..idx + 1][..idx] == data[..idx];
      var id := EntryId(data[idx]);
      if id.Raised? {
        GroupStaysRaised(data[..idx + 1], data[idx + 1..]);
        assert data[..idx + 1] + data[idx + 1..] == data;
        return Raised(id.error);
      }
      if id.value.Some? {
        var k := id.value.value;
        var prev := if k in seen.vals then seen.vals[k] else [];
        seen := Put(seen, k, prev + [idx]);
      }
    }
    assert data[..|data|] == data;
    r := Ok(Duplicates(seen));
  }

  /** A top-level string or object is iterated as its characters or keys, which are
      strings: an empty one reports no duplicates, and a non-empty one raises
      AttributeError on `.get` of its first item. */
  lemma FindDuplicatesIterated(v: Json)
    requires v.JStr? || v.JObj?
    ensures PyLen(v) == Ok(0) ==> Group(PyIter(v).value) == Ok(Empty())
    ensures PyLen(v) != Ok(0) ==> Group(PyIter(v).value) == Raised(AttributeError)
  {
    var data := PyIter(v).value;
    if data != [] {
      assert data[0].JStr? by {
        if v.JObj? {
          assert data[0] in data;
        }
      }
      GroupRaisedAt(data, 0);
    }
  }

  /** The first unreadable entry decides the error of the whole loop. */
  lemma {:induction false} GroupRaisedAt(data: seq<Json>, i: nat)
    requires i < |data| && EntryId(data[i]).Raised?
    requires forall j :: 0 <= j < i ==> EntryId(data[j]).Ok?
    ensures Group(data) == Raised(EntryId(data[i]).error)
  {
    var a := data[..i + 1];
    assert a[..i] == data[..i];
    assert Readable(data[..i]) by {
      forall j | 0 <= j < i
        ensures EntryId(data[..i][j]).Ok?
      {
        assert data[..i][j] == data[j];
      }
    }
    GroupStaysRaised(a, data[i + 1..]);
    assert a + data[i + 1..] == data;
  }

  lemma {:induction false} GroupStaysRaised(a: seq<Json>, b: seq<Json>)
    requires Group(a).Raised?
    ensures Group(a + b) == Group(a)
    decreases |b|
  {
    if b == [] {
      assert a + b == a;
    } else {
      GroupStaysRaised(a, b[..|b| - 1]);
      assert (a + b)[..|a + b| - 1] == a + b[..|b| - 1];
    }
  }

  /** The duplicates are exactly the ids occurring at two or more positions, and there are
      none exactly when all truthy ids are pairwise distinct. */
  lemma DuplicatesExact(data: seq<Json>)
    requires Readable(data)
    ensures forall k :: k in Duplicates(Group(data).value).vals <==> |IndicesOf(data, k)| > 1
    ensures Duplicates(Group(data).value).vals == map[] <==>
      forall i, j :: 0 <= i < j < |data| && EntryId(data[i]).value.Some? ==> EntryId(data[i]) != EntryId(data[j])
  {
    var seen := Group(data).value;
    GroupIsIndices(data);
    var dups := Duplicates(seen);
    forall k
      ensures k in dups.vals <==> |IndicesOf(data, k)| > 1
    {
      if |IndicesOf(data, k)| > 1 {
        assert IndicesOf(data, k) != [];
      }
    }
    if dups.vals == map[] {
      forall i, j | 0 <= i < j < |data| && EntryId(data[i]).value.Some?
        ensures EntryId(data[i]) != EntryId(data[j])
      {
        var k := EntryId(data[i]).value.value;
        IndicesOfExact(data, k);
        if EntryId(data[j]) == EntryId(data[i]) {
          TwoIndices(IndicesOf(data, k), i, j);
        }
      }
    } else {
      var k :| k in dups.vals;
      IndicesOfExact(data, k);
      var ix := IndicesOf(data, k);
      assert ix[0] in ix && ix[1] in ix;
      assert EntryId(data[ix[0]]) == Ok(Some(k)) && EntryId(data[ix[1]]) == Ok(Some(k));
    }
  }

  lemma TwoIndices(s: seq<nat>, i: nat, j: nat)
    requires i in s && j in s && i != j
    ensures |s| > 1
  {
  }
}
