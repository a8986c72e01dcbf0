/** The counting in web/java/stats.js (`initStats`, `buildCharts`): documents per month,
    per type, per status and per year, each tallied in a `forEach` loop into an object
    of counters and turned into a label array and an aligned data array. The date parser
    `parseDDMMYYYY` of render.js is the abstract `parse`; the Chart.js drawing is not
    modelled. */
module Stats {
  import opened Json
  import opened Strings
  import opened Dates

  /** One chart's input: `labels` and the `data` aligned with it. */
  datatype Chart = Chart(labels: seq<string>, data: seq<nat>)

  datatype Charts = Charts(perMonth: Chart, types: Chart, status: Chart, perYear: Chart)

  // ----------------------------------------------------------------
  // The keys each loop counts under; None means the `return` that skips a record.
  // ----------------------------------------------------------------

  /** `${dt.getFullYear()}-${String(dt.getMonth() + 1).padStart(2, "0")}`. */
  function MonthLabel(dt: Date): string {
    IntToString(dt.year) + ("-" + Pad(dt.month, 2))
  }

  function MonthKey(parse: Json -> Option<Date>): Json -> Option<string> {
    d => match parse(Member(d, "dato")) case Some(dt) => Some(MonthLabel(dt)) case None => None
  }

  /** Month labels tell months apart: equal labels have the same year and month. */
  lemma MonthLabelInjective(a: Date, b: Date)
    requires MonthLabel(a) == MonthLabel(b)
    ensures a.year == b.year && a.month == b.month
  {
    var s := MonthLabel(a);
    var ya, yb := NatToString(a.year), NatToString(b.year);
    assert s == ya + ("-" + Pad(a.month, 2)) && s == yb + ("-" + Pad(b.month, 2));
    assert |ya| == |yb|;
    assert ya == s[..|ya|] == yb;
    NatToStringInjective(a.year, b.year);
    assert Pad(a.month, 2) == s[|ya| + 1..] == Pad(b.month, 2);
    PadRoundTrip(a.month, 2);
    PadRoundTrip(b.month, 2);
  }

  /** `perYear[year]`: the year number used as a property name. */
  function YearKey(parse: Json -> Option<Date>): Json -> Option<string> {
    d => match parse(Member(d, "dato")) case Some(dt) => Some(IntToString(dt.year)) case None => None
  }

  /** `d.dokumenttype || "Ukjent"`, used as a property name. */
  function TypeKey(d: Json): Option<string> {
    Some(JsString(JsOr(Member(d, "dokumenttype"), JStr("Ukjent"))))
  }

  const PUBLISHED := "Publisert"
  const ON_REQUEST := "Må bes om innsyn"

  /** The two status counters, in the order the object literal creates them. */
  const STATUS_LABELS: seq<string> := [PUBLISHED, ON_REQUEST]

  /** `d.status === "Publisert"` picks the first counter, anything else the second. */
  function StatusKey(d: Json): Option<string> {
    Some(if Member(d, "status") == JStr(PUBLISHED) then PUBLISHED else ON_REQUEST)
  }

  // ----------------------------------------------------------------
  // Counting.
  // ----------------------------------------------------------------

  /** `counts[k] || 0`. */
  function Count(m: map<string, nat>, k: string): nat {
    if k in m then m[k] else 0
  }

  /** The counters after the loop has seen `data`. */
  function Tally(data: seq<Json>, key: Json -> Option<string>): map<string, nat>
    decreases |data|
  {
    if data == [] then map[]
    else
      var m := Tally(data[..|data| - 1], key);
      match key(data[|data| - 1])
      case None => m
      case Some(k) => m[k := Count(m, k) + 1]
  }

  /** The number of records counted under `k`. */
  function Occurrences(data: seq<Json>, key: Json -> Option<string>, k: string): nat
    decreases |data|
  {
    if data == [] then 0
    else (if key(data[0]) == Some(k) then 1 else 0) + Occurrences(data[1..], key, k)
  }

  /** The number of records counted at all. */
  function Keyed(data: seq<Json>, key: Json -> Option<string>): nat
    decreases |data|
  {
    if data == [] then 0 else (if key(data[0]).Some? then 1 else 0) + Keyed(data[1..], key)
  }

  lemma {:induction false} OccurrencesAppend(a: seq<Json>, b: seq<Json>, key: Json -> Option<string>, k: string)
    ensures Occurrences(a + b, key, k) == Occurrences(a, key, k) + Occurrences(b, key, k)
    ensures Keyed(a + b, key) == Keyed(a, key) + Keyed(b, key)
    decreases |a|
  {
    if a == [] {
      assert a + b == b;
    } else {
      assert (a + b)[0] == a[0] && (a + b)[1..] == a[1..] + b;
      OccurrencesAppend(a[1..], b, key, k);
    }
  }

  /** The loop counts every record under its key: a counter holds the number of records
      with that key, and exists exactly when there is one. */
  lemma {:induction false} TallyCounts(data: seq<Json>, key: Json -> Option<string>, k: string)
    ensures Count(Tally(data, key), k) == Occurrences(data, key, k)
    ensures k in Tally(data, key) <==> Occurrences(data, key, k) > 0
    decreases |data|
  {
    if data != [] {
      var init, last := data[..|data| - 1], data[|data| - 1];
      assert data == init + [last];
      TallyCounts(init, key, k);
      OccurrencesAppend(init, [last], key, k);
    }
  }

  lemma {:induction false} OccurrencesPositive(data: seq<Json>, key: Json -> Option<string>, k: string)
    ensures Occurrences(data, key, k) > 0 <==> exists i :: 0 <= i < |data| && key(data[i]) == Some(k)
    decreases |data|
  {
    if data != [] {
      OccurrencesPositive(data[1..], key, k);
      if exists i :: 0 <= i < |data| && key(data[i]) == Some(k) {
        var i :| 0 <= i < |data| && key(data[i]) == Some(k);
        if i > 0 {
          assert data[1..][i - 1] == data[i];
        }
      }
      if exists i :: 0 <= i < |data[1..]| && key(data[1..][i]) == Some(k) {
        var i :| 0 <= i < |data[1..]| && key(data[1..][i]) == Some(k);
        assert data[i + 1] == data[1..][i];
      }
    }
  }

  /** The counters' names are exactly the keys of the records. */
  lemma TallyKeys(data: seq<Json>, key: Json -> Option<string>, k: string)
    ensures k in Tally(data, key) <==> exists i :: 0 <= i < |data| && key(data[i]) == Some(k)
  {
    TallyCounts(data, key, k);
    OccurrencesPositive(data, key, k);
  }

  /** `data.forEach(d => { ... counts[key] = (counts[key] || 0) + 1; })`. */
  method CountBy(data: seq<Json>, key: Json -> Option<string>) returns (counts: map<string, nat>)
    ensures counts == Tally(data, key)
  {
    counts := map[];
    for i := 0 to |data|
      invariant counts == Tally(data[..i], key)
    {
      assert data[..i + 1][..i] == data[..i];
      match key(data[i]) {
        case None =>
        case Some(k) =>
          counts := counts[k := (if k in counts then counts[k] else 0) + 1];
      }
    }
    assert data[..|data|] == data;
  }

  // ----------------------------------------------------------------
  // Labels and data.
  // ----------------------------------------------------------------

  predicate Distinct(s: seq<string>) {
    forall i, j :: 0 <= i < j < |s| ==> s[i] != s[j]
  }

  /** `labels.map(k => counts[k])`. */
  function Column(labels: seq<string>, m: map<string, nat>): (r: seq<nat>)
    ensures |r| == |labels| && forall i :: 0 <= i < |labels| ==> r[i] == Count(m, labels[i])
  {
    seq(|labels|, i requires 0 <= i < |labels| => Count(m, labels[i]))
  }

  function Sum(s: seq<nat>): nat
    decreases |s|
  {
    if s == [] then 0 else s[0] + Sum(s[1..])
  }

  /** One more record under `k` adds one to the column total when `k` is a label. */
  lemma {:induction false} ColumnBump(labels: seq<string>, m: map<string, nat>, k: string)
    requires Distinct(labels)
    ensures Sum(Column(labels, m[k := Count(m, k) + 1])) == Sum(Column(labels, m)) + (if k in labels then 1 else 0)
    decreases |labels|
  {
    if labels != [] {
      var m' := m[k := Count(m, k) + 1];
      assert Column(labels, m')[1..] == Column(labels[1..], m');
      assert Column(labels, m)[1..] == Column(labels[1..], m);
      assert Distinct(labels[1..]);
      ColumnBump(labels[1..], m, k);
      if labels[0] == k {
        assert k !in labels[1..];
      }
    }
  }

  /** With distinct labels that name every counter, the data adds up to the number of
      records counted. */
  lemma {:induction false} ColumnTotal(data: seq<Json>, key: Json -> Option<string>, labels: seq<string>)
    requires Distinct(labels)
    requires forall i :: 0 <= i < |data| && key(data[i]).Some? ==> key(data[i]).value in labels
    ensures Sum(Column(labels, Tally(data, key))) == Keyed(data, key)
    decreases |data|
  {
    if data == [] {
      ColumnZero(labels);
    } else {
      var init, last := data[..|data| - 1], data[|data| - 1];
      assert data == init + [last];
      assert forall i :: 0 <= i < |init| ==> init[i] == data[i];
      ColumnTotal(init, key, labels);
      OccurrencesAppend(init, [last], key, "");
      if key(last).Some? {
        ColumnBump(labels, Tally(init, key), key(last).value);
      }
    }
  }

  lemma {:induction false} ColumnZero(labels: seq<string>)
    ensures Sum(Column(labels, map[])) == 0
    decreases |labels|
  {
    if labels != [] {
      assert Column(labels, map[])[1..] == Column(labels[1..], map[]);
      ColumnZero(labels[1..]);
    }
  }

  /** `Object.keys(counts).sort()` and the aligned `data`. */
  method ChartOf(counts: map<string, nat>) returns (c: Chart)
    ensures StrictlyAscending(c.labels) && Distinct(c.labels)
    ensures forall k :: k in c.labels <==> k in counts
    ensures c.data == Column(c.labels, counts)
  {
    var labels := SortStrings(counts.Keys);
    forall i, j | 0 <= i < j < |labels|
      ensures labels[i] != labels[j]
    {
      if labels[i] == labels[j] {
        StrLtIrreflexive(labels[i]);
      }
    }
    c := Chart(labels, Column(labels, counts));
  }

  /** Labels that name the counters name the keys of the records. */
  lemma LabelsAreKeys(data: seq<Json>, key: Json -> Option<string>, labels: seq<string>)
    requires forall k :: k in labels <==> k in Tally(data, key)
    ensures forall k :: k in labels <==> exists i :: 0 <= i < |data| && key(data[i]) == Some(k)
  {
    forall k
      ensures k in labels <==> exists i :: 0 <= i < |data| && key(data[i]) == Some(k)
    {
      TallyKeys(data, key, k);
    }
  }

  /** A chart of the counts under `key`: its labels name the counters, and its data adds
      up to the records counted. */
  lemma ChartTotal(data: seq<Json>, key: Json -> Option<string>, c: Chart)
    requires Distinct(c.labels) && (forall k :: k in c.labels <==> k in Tally(data, key))
    requires c.data == Column(c.labels, Tally(data, key))
    ensures Sum(c.data) == Keyed(data, key)
  {
    forall i | 0 <= i < |data| && key(data[i]).Some?
      ensures key(data[i]).value in c.labels
    {
      TallyKeys(data, key, key(data[i]).value);
    }
    ColumnTotal(data, key, c.labels);
  }

  // ----------------------------------------------------------------
  // initStats / buildCharts.
  // ----------------------------------------------------------------

  /** The number of records whose `dato` parses. */
  function Dated(data: seq<Json>, parse: Json -> Option<Date>): nat
    decreases |data|
  {
    if data == [] then 0 else (if parse(Member(data[0], "dato")).Some? then 1 else 0) + Dated(data[1..], parse)
  }

  /** A key that is present exactly for the dated records counts the dated records. */
  lemma {:induction false} KeyedDated(data: seq<Json>, parse: Json -> Option<Date>, key: Json -> Option<string>)
    requires forall d :: key(d).Some? <==> parse(Member(d, "dato")).Some?
    ensures Keyed(data, key) == Dated(data, parse)
    decreases |data|
  {
    if data != [] {
      KeyedDated(data[1..], parse, key);
    }
  }

  /** Every record has a type key and a status key. */
  lemma {:induction false} KeyedAll(data: seq<Json>, key: Json -> Option<string>)
    requires forall d :: key(d).Some?
    ensures Keyed(data, key) == |data|
    decreases |data|
  {
    if data != [] {
      KeyedAll(data[1..], key);
    }
  }

  /** `initStats(data)` up to the drawing: a value that is not an array gives None (the
      function returns), a null record raises a TypeError in the first loop, and otherwise
      the four charts are counted. Month and year totals are the number of dated records,
      type and status totals the number of records. */
  method InitStats(value: Json, parse: Json -> Option<Date>) returns (r: Outcome<Option<Charts>>)
    ensures !value.JArr? ==> r == Ok(None)
    ensures value.JArr? && JNull in value.items ==> r == Raised(TypeError)
    ensures value.JArr? && JNull !in value.items ==> r.Ok? && r.value.Some?
    ensures r.Ok? && r.value.Some? ==>
      var data, c := value.items, r.value.value;
      && StrictlyAscending(c.perMonth.labels) && StrictlyAscending(c.types.labels) && StrictlyAscending(c.perYear.labels)
      && (forall k :: k in c.perMonth.labels <==> exists i :: 0 <= i < |data| && MonthKey(parse)(data[i]) == Some(k))
      && (forall k :: k in c.types.labels <==> exists i :: 0 <= i < |data| && TypeKey(data[i]) == Some(k))
      && (forall k :: k in c.perYear.labels <==> exists i :: 0 <= i < |data| && YearKey(parse)(data[i]) == Some(k))
      && c.perMonth.data == Column(c.perMonth.labels, Tally(data, MonthKey(parse)))
      && c.types.data == Column(c.types.labels, Tally(data, TypeKey))
      && c.perYear.data == Column(c.perYear.labels, Tally(data, YearKey(parse)))
      && c.status == Chart(STATUS_LABELS, Column(STATUS_LABELS, Tally(data, StatusKey)))
      && Sum(c.perMonth.data) == Sum(c.perYear.data) == Dated(data, parse)
      && Sum(c.types.data) == Sum(c.status.data) == |data|
  {
    if !value.JArr? {
      return Ok(None);
    }
    var data := value.items;
    if JNull in data {
      return Raised(TypeError);
    }
    var perMonth := CountBy(data, MonthKey(parse));
    var month := ChartOf(perMonth);
    var types := CountBy(data, TypeKey);
    var typeChart := ChartOf(types);
    var status := CountBy(data, StatusKey);
    var statusChart := Chart(STATUS_LABELS, Column(STATUS_LABELS, status));
    var perYear := CountBy(data, YearKey(parse));
    var year := ChartOf(perYear);
    LabelsAreKeys(data, MonthKey(parse), month.labels);
    LabelsAreKeys(data, TypeKey, typeChart.labels);
    LabelsAreKeys(data, YearKey(parse), year.labels);
    ChartTotal(data, MonthKey(parse), month);
    ChartTotal(data, TypeKey, typeChart);
    ChartTotal(data, YearKey(parse), year);
    ColumnTotal(data, StatusKey, STATUS_LABELS);
    KeyedDated(data, parse, MonthKey(parse));
    KeyedDated(data, parse, YearKey(parse));
    KeyedAll(data, TypeKey);
    KeyedAll(data, StatusKey);
    r := Ok(Some(Charts(month, typeChart, statusChart, year)));
  }
}
