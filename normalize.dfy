/** The one-off clean-up of tools/normalize_postliste.py: each record loses its
    `parsed_date`, gets `dato` (DD.MM.YYYY) and `dato_iso` (YYYY-MM-DD, the ISO 8601
    extended calendar date of section 5.2.1.1 of ISO 8601:2004) filled from each other,
    and records whose `dato_iso` does not validate are dropped. */
module Normalize {
  import opened Json
  import opened Dates
  import opened Strings
  import opened Storage

  const POSTLISTE_PATH: string := "data/postliste.json"
  const BACKUP_PATH: string := "data/postliste_backup_before_normalize.json"

  /** `parse_date(dato_str)`: `strptime("%d.%m.%Y")`, with None for anything it rejects,
      a value that is not a string included; it never raises. */
  function ParseDate(cal: Calendar, v: Json): (r: Option<Date>)
    ensures !v.JStr? ==> r.None?
    ensures v.JStr? ==> r == cal.strptimeDmy(v.s)
  {
    if v.JStr? then cal.strptimeDmy(v.s) else None
  }

  /** `datetime.strptime(v, "%Y-%m-%d")` under a bare `except`. */
  function ParseIso(cal: Calendar, v: Json): Option<Date> {
    if v.JStr? then cal.strptimeYmd(v.s) else None
  }

  /** Whether `dato_iso` passes the final validation. */
  predicate ValidIso(cal: Calendar, e: Doc) {
    "dato_iso" in e && ParseIso(cal, e["dato_iso"]).Some?
  }

  /** Step 1: drop `parsed_date`. */
  function DropParsed(e: Doc): (Doc, bool) {
    if "parsed_date" in e then (e - {"parsed_date"}, true) else (e, false)
  }

  /** Step 2: an empty `dato` is filled from a `dato_iso` that parses. */
  function FillDato(cal: Calendar, e: Doc): (Doc, bool) {
    if !Truthy(Get(e, "dato")) && Truthy(Get(e, "dato_iso")) && ParseIso(cal, e["dato_iso"]).Some? then
      (e["dato" := JStr(FormatDmy(ParseIso(cal, e["dato_iso"]).value))], true)
    else (e, false)
  }

  /** Step 3: an empty `dato_iso` is filled from a `dato` that parses. */
  function FillIso(cal: Calendar, e: Doc): (Doc, bool) {
    if !Truthy(Get(e, "dato_iso")) && Truthy(Get(e, "dato")) && ParseDate(cal, e["dato"]).Some? then
      (e["dato_iso" := JStr(FormatIso(ParseDate(cal, e["dato"]).value))], true)
    else (e, false)
  }

  /** Step 4: a `dato_iso` that is missing or does not validate becomes `None`. */
  function Validate(cal: Calendar, e: Doc): (Doc, bool) {
    if ValidIso(cal, e) then (e, false) else (e["dato_iso" := JNull], true)
  }

  /** `normalize_entry(entry)` as the composition of its four steps: the new record and
      whether any step reported a change. */
  function Normalized(cal: Calendar, e: Doc): (Doc, bool) {
    var (e1, c1) := DropParsed(e);
    var (e2, c2) := FillDato(cal, e1);
    var (e3, c3) := FillIso(cal, e2);
    var (e4, c4) := Validate(cal, e3);
    (e4, c1 || c2 || c3 || c4)
  }

  /** `normalize_entry(entry)`, updating the record field by field. */
  method NormalizeEntry(cal: Calendar, entry: Doc) returns (e: Doc, changed: bool)
    ensures (e, changed) == Normalized(cal, entry)
  {
    e := entry;
    changed := false;
    if "parsed_date" in e {
      e := e - {"parsed_date"};
      changed := true;
    }
    if !Truthy(Get(e, "dato")) {
      if Truthy(Get(e, "dato_iso")) {
        var d := ParseIso(cal, e["dato_iso"]);
        if d.Some? {
          e := e["dato" := JStr(FormatDmy(d.value))];
          changed := true;
        }
      }
    }
    if !Truthy(Get(e, "dato_iso")) {
      if Truthy(Get(e, "dato")) {
        var d := ParseDate(cal, e["dato"]);
        if d.Some? {
          e := e["dato_iso" := JStr(FormatIso(d.value))];
          changed := true;
        }
      }
    }
    if !ValidIso(cal, e) {
      e := e["dato_iso" := JNull];
      changed := true;
    }
  }

  /** After normalisation `parsed_date` is gone, and `dato_iso` is present and either a
      string that validates or `None`; an entry left with `None` always reports a change. */
  lemma NormalizedShape(cal: Calendar, e: Doc)
    ensures "parsed_date" !in Normalized(cal, e).0
    ensures "dato_iso" in Normalized(cal, e).0
    ensures ValidIso(cal, Normalized(cal, e).0) || Normalized(cal, e).0["dato_iso"] == JNull
    ensures !ValidIso(cal, Normalized(cal, e).0) ==> Normalized(cal, e).1
  {
  }

  /** A record reported unchanged is left exactly as it was. */
  lemma NormalizedUnchanged(cal: Calendar, e: Doc)
    ensures !Normalized(cal, e).1 ==> Normalized(cal, e).0 == e
  {
  }

  /** Other fields are never touched. */
  lemma NormalizedKeepsOthers(cal: Calendar, e: Doc, k: string)
    requires k != "parsed_date" && k != "dato" && k != "dato_iso"
    ensures k in Normalized(cal, e).0 <==> k in e
    ensures k in e ==> Normalized(cal, e).0[k] == e[k]
  {
  }

  /** The fill rules: an empty `dato` is taken from a `dato_iso` that parses, reformatted as
      DD.MM.YYYY; an empty `dato_iso` is taken from a `dato` that parses, as YYYY-MM-DD. */
  lemma NormalizedFills(cal: Calendar, e: Doc)
    ensures !Truthy(Get(e, "dato")) && Truthy(Get(e, "dato_iso")) && ParseIso(cal, e["dato_iso"]).Some? ==>
      Normalized(cal, e).0["dato"] == JStr(FormatDmy(ParseIso(cal, e["dato_iso"]).value))
    ensures !Truthy(Get(e, "dato_iso")) && Truthy(Get(e, "dato")) && ParseDate(cal, e["dato"]).Some?
            && cal.strptimeYmd(FormatIso(ParseDate(cal, e["dato"]).value)).Some? ==>
      Normalized(cal, e).0["dato_iso"] == JStr(FormatIso(ParseDate(cal, e["dato"]).value))
    ensures Truthy(Get(e, "dato")) ==> Normalized(cal, e).0["dato"] == e["dato"]
  {
    var (e1, _) := DropParsed(e);
    assert Get(e1, "dato") == Get(e, "dato") && Get(e1, "dato_iso") == Get(e, "dato_iso");
  }

  /** A record that comes out with a truthy `dato_iso` is a fixed point: normalising it
      again reports no change and returns it as it is. */
  lemma NormalizedIdempotent(cal: Calendar, e: Doc)
    requires Truthy(Get(Normalized(cal, e).0, "dato_iso"))
    ensures Normalized(cal, Normalized(cal, e).0) == (Normalized(cal, e).0, false)
  {
    var (e1, _) := DropParsed(e);
    var (e2, _) := FillDato(cal, e1);
    var (e3, _) := FillIso(cal, e2);
    var out := Normalized(cal, e).0;
    assert ValidIso(cal, e3);
    assert Truthy(Get(out, "dato"));
  }

  // ----------------------------------------------------------------
  // main
  // ----------------------------------------------------------------

  /** What `normalize_entry` raises on a list item that is not a dict: the membership test
      `"parsed_date" in entry` raises on values that are not containers; when it succeeds,
      `del entry["parsed_date"]` raises TypeError and `entry.get` AttributeError. */
  function NonDictError(v: Json): PyError
    requires !v.JObj?
  {
    match v
    case JStr(s) => if Contains(s, "parsed_date") then TypeError else AttributeError
    case JArr(a) => if JStr("parsed_date") in a then TypeError else AttributeError
    case _ => TypeError
  }

  datatype Summary = Summary(normalized: seq<Doc>, removed: nat, changedCount: nat)

  /** The loop of `main`: normalise each entry, drop those left without a truthy
      `dato_iso`, count the changed ones among those kept. */
  function NormalizeAll(cal: Calendar, data: seq<Json>): Outcome<Summary> {
    if data == [] then Ok(Summary([], 0, 0))
    else
      match NormalizeAll(cal, data[..|data| - 1])
      case Raised(err) => Raised(err)
      case Ok(s) =>
        var entry := data[|data| - 1];
        if !entry.JObj? then Raised(NonDictError(entry))
        else
          var (e, changed) := Normalized(cal, entry.fields);
          if !Truthy(Get(e, "dato_iso")) then Ok(Summary(s.normalized, s.removed + 1, s.changedCount))
          else Ok(Summary(s.normalized + [e], s.removed, s.changedCount + (if changed then 1 else 0)))
  }

  /** Every entry is either kept or counted as removed, each kept record has a truthy
      `dato_iso` that validates, and at most the kept records count as changed; the run
      fails exactly when some entry is not a dict. */
  lemma {:induction false} NormalizeAllCounts(cal: Calendar, data: seq<Json>)
    ensures NormalizeAll(cal, data).Ok? <==> forall i :: 0 <= i < |data| ==> data[i].JObj?
    ensures NormalizeAll(cal, data).Ok? ==>
      var s := NormalizeAll(cal, data).value;
      && s.removed + |s.normalized| == |data|
      && s.changedCount <= |s.normalized|
      && forall i :: 0 <= i < |s.normalized| ==>
           Truthy(Get(s.normalized[i], "dato_iso")) && ValidIso(cal, s.normalized[i])
    decreases |data|
  {
    if data != [] {
      var init := data[..|data| - 1];
      NormalizeAllCounts(cal, init);
      if !(forall i :: 0 <= i < |init| ==> init[i].JObj?) {
        var i :| 0 <= i < |init| && !init[i].JObj?;
        assert data[i] == init[i];
      }
      var entry := data[|data| - 1];
      if entry.JObj? {
        NormalizedShape(cal, entry.fields);
      }
    }
  }

  /** `main()`: backs up the file's text, parses it, normalises what iterating the parsed
      value gives and writes back the records kept. A missing file raises, as does text
      that does not parse, a value without a `len` (TypeError) or an entry that is not a
      dict; the backup has then already been taken. A string or an object is iterated:
      an empty one writes back `[]`, and the first character or key of a non-empty one
      is an entry that is not a dict. */
  method NormalizeMain(fs: FileSystem, cal: Calendar) returns (r: Outcome<Summary>)
    modifies fs
    ensures var backedUp := if POSTLISTE_PATH in old(fs.files)
                            then old(fs.files)[BACKUP_PATH := old(fs.files)[POSTLISTE_PATH]]
                            else old(fs.files);
      match ReadJson(old(fs.files), POSTLISTE_PATH)
      case None =>
        && r == Raised(if POSTLISTE_PATH in old(fs.files) then ValueError else OSError)
        && fs.files == backedUp
      case Some(v) =>
        if PyIter(v).None? then r == Raised(TypeError) && fs.files == backedUp
        else
          && r == NormalizeAll(cal, PyIter(v).value)
          && (r.Raised? ==> fs.files == backedUp)
          && (r.Ok? ==> fs.files == backedUp[POSTLISTE_PATH := Text(JArr(DocsJson(r.value.normalized)))])
  {
    assert |BACKUP_PATH| != |POSTLISTE_PATH|;
    if POSTLISTE_PATH in fs.files {
      fs.files := fs.files[BACKUP_PATH := fs.files[POSTLISTE_PATH]];
    }
    if POSTLISTE_PATH !in fs.files {
      return Raised(OSError);
    }
    var content := fs.files[POSTLISTE_PATH];
    if content.Corrupt? {
      return Raised(ValueError);
    }
    var entries := PyIter(content.value);
    if entries.None? {
      return Raised(TypeError);
    }
    var data := entries.value;
    var normalized: seq<Doc> := [];
    var removed, changedCount := 0, 0;
    for i := 0 to |data|
      invariant NormalizeAll(cal, data[..i]) == Ok(Summary(normalized, removed, changedCount))
      invariant fs.files == old(fs.files)[BACKUP_PATH := old(fs.files)[POSTLISTE_PATH]]
    {
      var entry := data[i];
      if !entry.JObj? {
        NormalizeRaisedAt(cal, data, i);
        return Raised(NonDictError(entry));
      }
      NormalizeSnoc(cal, data, i);
      var e, changed := NormalizeEntry(cal, entry.fields);
      if !Truthy(Get(e, "dato_iso")) {
        removed := removed + 1;
        continue;
      }
      if changed {
        changedCount := changedCount + 1;
      }
      normalized := normalized + [e];
    }
    assert data[..|data|] == data;
    fs.AtomicWrite(POSTLISTE_PATH, JArr(DocsJson(normalized)));
    r := Ok(Summary(normalized, removed, changedCount));
  }

  function DocsJson(docs: seq<Doc>): seq<Json> {
    seq(|docs|, i requires 0 <= i < |docs| => JObj(docs[i]))
  }

  /** One more dict entry: dropped and counted when its `dato_iso` is falsy, appended
      (and counted as changed when it was) otherwise. */
  lemma NormalizeSnoc(cal: Calendar, data: seq<Json>, i: int)
    requires 0 <= i < |data| && NormalizeAll(cal, data[..i]).Ok? && data[i].JObj?
    ensures var s := NormalizeAll(cal, data[..i]).value;
      var (e, changed) := Normalized(cal, data[i].fields);
      NormalizeAll(cal, data[..i + 1])
        == if !Truthy(Get(e, "dato_iso")) then Ok(Summary(s.normalized, s.removed + 1, s.changedCount))
           else Ok(Summary(s.normalized + [e], s.removed, s.changedCount + (if changed then 1 else 0)))
  {
    assert data[..i + 1][..i] == data[..i] && data[..i + 1][i] == data[i];
  }

  /** An entry that is not a dict after entries that all were: the run raises for it. */
  lemma NormalizeRaisedAt(cal: Calendar, data: seq<Json>, i: int)
    requires 0 <= i < |data| && NormalizeAll(cal, data[..i]).Ok? && !data[i].JObj?
    ensures NormalizeAll(cal, data) == Raised(NonDictError(data[i]))
  {
    assert data[..i + 1][..i] == data[..i] && data[..i + 1][i] == data[i];
    NormalizeStaysRaised(cal, data[..i + 1], data[i + 1..]);
    assert data[..i + 1] + data[i + 1..] == data;
  }

  lemma {:induction false} NormalizeStaysRaised(cal: Calendar, a: seq<Json>, b: seq<Json>)
    requires NormalizeAll(cal, a).Raised?
    ensures NormalizeAll(cal, a + b) == NormalizeAll(cal, a)
    decreases |b|
  {
    if b == [] {
      assert a + b == a;
    } else {
      NormalizeStaysRaised(cal, a, b[..|b| - 1]);
      assert (a + b)[..|a + b| - 1] == a + b[..|b| - 1];
    }
  }

  /** A top-level string or object: an empty one normalises to no records, so `[]` is
      written back; a non-empty string fails on its first character with AttributeError
      (`.get` on a one-character string), and a non-empty object fails on a key. */
  lemma NormalizeIterated(cal: Calendar, v: Json)
    requires v.JStr? || v.JObj?
    ensures PyLen(v) == Ok(0) ==> NormalizeAll(cal, PyIter(v).value) == Ok(Summary([], 0, 0))
    ensures PyLen(v) != Ok(0) ==> NormalizeAll(cal, PyIter(v).value).Raised?
    ensures v.JStr? && v.s != [] ==> NormalizeAll(cal, PyIter(v).value) == Raised(AttributeError)
  {
    var data := PyIter(v).value;
    if data != [] {
      assert data[0].JStr? by {
        if v.JObj? {
          assert data[0] in data;
        }
      }
      if v.JStr? {
        assert data[0] == JStr([v.s[0]]);
        assert !Contains(data[0].s, "parsed_date");
      }
      assert data[..0] == [];
      NormalizeRaisedAt(cal, data, 0);
    }
  }
}
