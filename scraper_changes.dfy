/** Field-level change detection of src/scrapers/scraper_changes.py: a record new to the
    store is reported with every tracked field; a known record is reported with the tracked
    fields whose values differ and with its attachment count when that differs. */
module ScraperChanges {
  import opened Json
  import opened Dicts
  import opened UtilsFiles

  /** The fields compared, in the order the diff lists them. */
  const TRACKED: seq<string> :=
    ["status", "tittel", "dokumenttype", "avsender_mottaker", "detalj_link", "dato", "dato_iso"]

  const FILER_COUNT: string := "filer_count"

  /** One diff entry, `{"gammel": ..., "ny": ...}`. */
  datatype Change = Change(gammel: Json, ny: Json)

  type Diff = Dict<string, Change>

  /** `len(d.get("filer", []))`: a missing list counts 0, a value without a length raises. */
  function FilerCount(d: Doc): Outcome<nat> {
    PyLen(GetOr(d, "filer", JArr([])))
  }

  /** `existing.get(doc_id)` where `existing` maps ids to records. */
  function Lookup(existing: map<Json, Doc>, id: Json): Option<Doc> {
    if id in existing then Some(existing[id]) else None
  }

  /** `not prior`: no record, or an empty one. */
  predicate NoPrior(prior: Option<Doc>) {
    prior.None? || prior.value == map[]
  }

  /** The diff for a record not seen before. */
  function NewRecordDiff(newDoc: Doc, count: nat): Diff {
    Dict(TRACKED + [FILER_COUNT],
         (map k | k in TRACKED :: Change(JNull, Get(newDoc, k)))[FILER_COUNT := Change(JNum(0), JNum(count))])
  }

  lemma DiffKeysDistinct()
    ensures forall i, j :: 0 <= i < j < |TRACKED + [FILER_COUNT]| ==>
      (TRACKED + [FILER_COUNT])[i] != (TRACKED + [FILER_COUNT])[j]
  {
    var K := TRACKED + [FILER_COUNT];
    assert K[0] == "status" && K[1] == "tittel" && K[2] == "dokumenttype" && K[3] == "avsender_mottaker";
    assert K[4] == "detalj_link" && K[5] == "dato" && K[6] == "dato_iso" && K[7] == "filer_count";
    assert |K[0]| == 6 && |K[1]| == 6 && |K[2]| == 12 && |K[3]| == 17;
    assert |K[4]| == 11 && |K[5]| == 4 && |K[6]| == 8 && |K[7]| == 11;
    assert K[0][0] != K[1][0] && K[4][0] != K[7][0];
  }

  /** The loop over `keys` for a known record: an entry for each key whose values differ. */
  function TrackedDiff(prior: Doc, newDoc: Doc, keys: seq<string>): (r: Diff)
    ensures r.Wf()
  {
    if keys == [] then Empty()
    else
      var p := TrackedDiff(prior, newDoc, keys[..|keys| - 1]);
      var k := keys[|keys| - 1];
      if !PyEq(Get(prior, k), Get(newDoc, k)) then Put(p, k, Change(Get(prior, k), Get(newDoc, k))) else p
  }

  /** `detect_changes(existing, new_doc)`: `(is_new, changes)`, or the exception raised. */
  function Detect(existing: map<Json, Doc>, newDoc: Doc): Outcome<(bool, Diff)> {
    match DocId(newDoc)
    case Raised(e) => Raised(e)
    case Ok(id) =>
      var prior := Lookup(existing, id);
      if NoPrior(prior) then
        match FilerCount(newDoc)
        case Raised(e) => Raised(e)
        case Ok(n) => Ok((true, NewRecordDiff(newDoc, n)))
      else
        var changes := TrackedDiff(prior.value, newDoc, TRACKED);
        match FilerCount(prior.value)
        case Raised(e) => Raised(e)
        case Ok(a) =>
          match FilerCount(newDoc)
          case Raised(e) => Raised(e)
          case Ok(b) => Ok((false, if a != b then Put(changes, FILER_COUNT, Change(JNum(a), JNum(b))) else changes))
  }

  /** The imperative form of `detect_changes`, with the key loop. */
  method DetectChanges(existing: map<Json, Doc>, newDoc: Doc) returns (r: Outcome<(bool, Diff)>)
    ensures r == Detect(existing, newDoc)
  {
    var docId := DocId(newDoc);
    if docId.Raised? {
      return Raised(docId.error);
    }
    var prior := Lookup(existing, docId.value);
    if NoPrior(prior) {
      var n := FilerCount(newDoc);
      if n.Raised? {
        return Raised(n.error);
      }
      return Ok((true, NewRecordDiff(newDoc, n.value)));
    }
    var changes: Diff := Empty();
    for i := 0 to |TRACKED|
      invariant changes == TrackedDiff(prior.value, newDoc, TRACKED[..i])
    {
      assert TRACKED[..i + 1][..i] == TRACKED[..i];
      var key := TRACKED[i];
      if !PyEq(Get(prior.value, key), Get(newDoc, key)) {
        changes := Put(changes, key, Change(Get(prior.value, key), Get(newDoc, key)));
      }
    }
    assert TRACKED[..|TRACKED|] == TRACKED;
    var a := FilerCount(prior.value);
    if a.Raised? {
      return Raised(a.error);
    }
    var b := FilerCount(newDoc);
    if b.Raised? {
      return Raised(b.error);
    }
    if a.value != b.value {
      changes := Put(changes, FILER_COUNT, Change(JNum(a.value), JNum(b.value)));
    }
    r := Ok((false, changes));
  }

  /** The key loop reports exactly the keys among `keys` whose values differ, each with its
      prior and new value, in the order of `keys`. */
  lemma {:induction false} TrackedDiffExact(prior: Doc, newDoc: Doc, keys: seq<string>)
    requires forall i, j :: 0 <= i < j < |keys| ==> keys[i] != keys[j]
    ensures forall k :: k in TrackedDiff(prior, newDoc, keys).vals <==> k in keys && !PyEq(Get(prior, k), Get(newDoc, k))
    ensures forall k :: k in TrackedDiff(prior, newDoc, keys).vals ==>
      TrackedDiff(prior, newDoc, keys).vals[k] == Change(Get(prior, k), Get(newDoc, k))
    ensures forall i :: 0 <= i < |TrackedDiff(prior, newDoc, keys).keys| ==> TrackedDiff(prior, newDoc, keys).keys[i] in keys
    decreases |keys|
  {
    if keys != [] {
      TrackedDiffExact(prior, newDoc, keys[..|keys| - 1]);
    }
  }

  /** A record without a prior version is new, and the diff holds exactly the seven tracked
      fields with no prior value and the attachment count against 0. */
  lemma DetectNew(existing: map<Json, Doc>, newDoc: Doc)
    requires DocId(newDoc).Ok? && NoPrior(Lookup(existing, Id(newDoc)))
    ensures FilerCount(newDoc).Raised? ==> Detect(existing, newDoc) == Raised(TypeError)
    ensures FilerCount(newDoc).Ok? ==>
      && Detect(existing, newDoc).Ok?
      && var (isNew, d) := Detect(existing, newDoc).value;
      && isNew && d.Wf() && |d.keys| == 8 && d.keys == TRACKED + [FILER_COUNT]
      && (forall k :: k in TRACKED ==> d.vals[k] == Change(JNull, Get(newDoc, k)))
      && d.vals[FILER_COUNT] == Change(JNum(0), JNum(FilerCount(newDoc).value))
  {
    if FilerCount(newDoc).Ok? {
      NewRecordDiffShape(newDoc, FilerCount(newDoc).value);
    }
  }

  lemma NewRecordDiffShape(newDoc: Doc, count: nat)
    ensures var d := NewRecordDiff(newDoc, count);
      && d.Wf() && |d.keys| == 8
      && (forall k :: k in TRACKED ==> k in d.vals && d.vals[k] == Change(JNull, Get(newDoc, k)))
      && d.vals[FILER_COUNT] == Change(JNum(0), JNum(count))
  {
    DiffKeysDistinct();
    assert FILER_COUNT !in TRACKED by {
      assert (TRACKED + [FILER_COUNT])[7] == FILER_COUNT;
    }
  }

  /** For a known record, a key is in the diff exactly when it is tracked and its values
      differ, or when it is `filer_count` and the attachment counts differ. */
  lemma DetectKnown(existing: map<Json, Doc>, newDoc: Doc)
    requires DocId(newDoc).Ok? && !NoPrior(Lookup(existing, Id(newDoc)))
    ensures var prior := existing[Id(newDoc)];
      && (FilerCount(prior).Raised? || FilerCount(newDoc).Raised? <==> Detect(existing, newDoc) == Raised(TypeError))
      && (Detect(existing, newDoc).Ok? ==>
            var (isNew, d) := Detect(existing, newDoc).value;
            && !isNew
            && (forall k :: k in d.vals <==>
                  (k in TRACKED && !PyEq(Get(prior, k), Get(newDoc, k)))
                  || (k == FILER_COUNT && FilerCount(prior).value != FilerCount(newDoc).value))
            && (forall k :: k in TRACKED && k in d.vals ==> d.vals[k] == Change(Get(prior, k), Get(newDoc, k)))
            && (FILER_COUNT in d.vals ==>
                  d.vals[FILER_COUNT] == Change(JNum(FilerCount(prior).value), JNum(FilerCount(newDoc).value))))
  {
    var prior := existing[Id(newDoc)];
    TrackedDiffExact(prior, newDoc, TRACKED);
  }

  /** Re-submitting a record equal to the stored one in every tracked field and in its
      attachment count reports no change. */
  lemma DetectUnchanged(existing: map<Json, Doc>, newDoc: Doc)
    requires DocId(newDoc).Ok? && !NoPrior(Lookup(existing, Id(newDoc)))
    requires forall k :: k in TRACKED ==> Get(existing[Id(newDoc)], k) == Get(newDoc, k)
    requires FilerCount(existing[Id(newDoc)]).Ok? && FilerCount(existing[Id(newDoc)]) == FilerCount(newDoc)
    ensures Detect(existing, newDoc) == Ok((false, Empty()))
  {
    var prior := existing[Id(newDoc)];
    forall k | k in TRACKED
      ensures PyEq(Get(prior, k), Get(newDoc, k))
    {
      PyEqReflexive(Get(newDoc, k));
    }
    TrackedDiffNone(prior, newDoc, TRACKED);
  }

  lemma {:induction false} TrackedDiffNone(prior: Doc, newDoc: Doc, keys: seq<string>)
    requires forall k :: k in keys ==> PyEq(Get(prior, k), Get(newDoc, k))
    ensures TrackedDiff(prior, newDoc, keys) == Empty()
    decreases |keys|
  {
    if keys != [] {
      TrackedDiffNone(prior, newDoc, keys[..|keys| - 1]);
    }
  }

  /** The result depends on the new record only through its id, the tracked fields as
      `.get` reads them and its attachment list: untracked fields never appear in a diff,
      and a missing tracked field behaves like an explicit `None`. */
  lemma DetectReadsTrackedOnly(existing: map<Json, Doc>, a: Doc, b: Doc)
    requires DocId(a) == DocId(b)
    requires forall k :: k in TRACKED ==> Get(a, k) == Get(b, k)
    requires GetOr(a, "filer", JArr([])) == GetOr(b, "filer", JArr([]))
    ensures Detect(existing, a) == Detect(existing, b)
  {
    if DocId(a).Ok? {
      var prior := Lookup(existing, DocId(a).value);
      if !NoPrior(prior) {
        TrackedDiffSame(prior.value, a, b, TRACKED);
        assert FilerCount(a) == FilerCount(b);
        assert TrackedDiff(prior.value, a, TRACKED) == TrackedDiff(prior.value, b, TRACKED);
      } else {
        assert FilerCount(a) == FilerCount(b);
        assert forall k :: k in TRACKED ==> Get(a, k) == Get(b, k);
        if FilerCount(a).Ok? {
          var n := FilerCount(a).value;
          assert (map k | k in TRACKED :: Change(JNull, Get(a, k)))
              == (map k | k in TRACKED :: Change(JNull, Get(b, k)));
          assert NewRecordDiff(a, n) == NewRecordDiff(b, n);
        }
      }
    }
  }

  lemma {:induction false} TrackedDiffSame(prior: Doc, a: Doc, b: Doc, keys: seq<string>)
    requires forall k :: k in keys ==> Get(a, k) == Get(b, k)
    ensures TrackedDiff(prior, a, keys) == TrackedDiff(prior, b, keys)
    decreases |keys|
  {
    if keys != [] {
      TrackedDiffSame(prior, a, b, keys[..|keys| - 1]);
    }
  }

  /** `build_change_entry(doc_id, title, change_dict, change_type)`, with the clock reading
      passed in as `now`. */
  datatype ChangeEntry = ChangeEntry(tidspunkt: string, changeType: Json, dokumentID: Json,
                                     tittel: Json, endringer: Diff)

  function BuildChangeEntry(now: string, docId: Json, title: Json, changes: Diff, changeType: Json)
    : (e: ChangeEntry)
    ensures e.dokumentID == docId && e.tittel == title && e.endringer == changes
    ensures e.changeType == changeType && e.tidspunkt == now
  {
    ChangeEntry(now, changeType, docId, title, changes)
  }
}
