/** The CSV export of web/java/export.js (`exportCSV`): one row per filtered record under
    a fixed header, each field wrapped in double quotes with its inner quotes doubled
    (section 2, rules 6 and 7, of RFC 4180), fields separated by commas and rows by a line
    feed. The filtered records are the parameter `filtered`; the download is not modelled.
    A parser for the produced text shows that nothing is lost. */
module Export {
  import opened Json
  import opened Strings

  const HEADER: seq<string> :=
    ["Dato", "DokumentID", "Tittel", "Dokumenttype", "Avsender/Mottaker", "Status", "Journalpostlenke"]

  // ----------------------------------------------------------------
  // The title: `.replace(/\s+/g, " ").trim()`.
  // ----------------------------------------------------------------

  /** Replaces every maximal run of whitespace by one space. */
  function Collapse(s: string): string
    decreases |s|
  {
    if s == [] then []
    else if JsSpace(s[0]) then
      TrimStartSpec(s[1..], JsSpace);
      " " + Collapse(TrimStart(s[1..], JsSpace))
    else [s[0]] + Collapse(s[1..])
  }

  /** The cleaned title. */
  function CleanTitle(s: string): string {
    Trim(Collapse(s), JsSpace)
  }

  /** The only whitespace is the plain space, and no two whitespace characters are adjacent. */
  predicate SingleSpaced(t: string) {
    (forall i :: 0 <= i < |t| && JsSpace(t[i]) ==> t[i] == ' ')
    && (forall i :: 0 <= i < |t| - 1 && JsSpace(t[i]) ==> !JsSpace(t[i + 1]))
  }

  /** A cleaned title: single-spaced, and neither starting nor ending with a space. */
  predicate Clean(t: string) {
    SingleSpaced(t) && (t != [] ==> !JsSpace(t[0]) && !JsSpace(t[|t| - 1]))
  }

  /** The characters that are not whitespace, in order. */
  function NonSpace(s: string): string
    decreases |s|
  {
    if s == [] then [] else (if JsSpace(s[0]) then [] else [s[0]]) + NonSpace(s[1..])
  }

  lemma {:induction false} NonSpaceAppend(a: string, b: string)
    ensures NonSpace(a + b) == NonSpace(a) + NonSpace(b)
    decreases |a|
  {
    if a == [] {
      assert a + b == b;
    } else {
      assert (a + b)[0] == a[0] && (a + b)[1..] == a[1..] + b;
      NonSpaceAppend(a[1..], b);
    }
  }

  lemma {:induction false} NonSpaceAllSpace(a: string)
    requires AllSpace(a, JsSpace)
    ensures NonSpace(a) == []
    decreases |a|
  {
    if a != [] {
      NonSpaceAllSpace(a[1..]);
    }
  }

  /** Collapsing yields a single-spaced string that starts with a space exactly when the
      input does. */
  lemma {:induction false} CollapseShape(s: string)
    ensures SingleSpaced(Collapse(s))
    ensures |Collapse(s)| <= |s| && (Collapse(s) == [] <==> s == [])
    ensures s != [] ==> (JsSpace(Collapse(s)[0]) <==> JsSpace(s[0]))
    decreases |s|
  {
    if s != [] {
      if JsSpace(s[0]) {
        var t := TrimStart(s[1..], JsSpace);
        TrimStartSpec(s[1..], JsSpace);
        CollapseShape(t);
        assert Collapse(s) == [' '] + Collapse(t);
      } else {
        CollapseShape(s[1..]);
        assert Collapse(s) == [s[0]] + Collapse(s[1..]);
      }
    }
  }

  /** Collapsing keeps every non-whitespace character, in order. */
  lemma {:induction false} CollapseNonSpace(s: string)
    ensures NonSpace(Collapse(s)) == NonSpace(s)
    decreases |s|
  {
    if s != [] {
      if JsSpace(s[0]) {
        var t := TrimStart(s[1..], JsSpace);
        TrimStartSpec(s[1..], JsSpace);
        CollapseNonSpace(t);
        var dropped := s[1..][..|s| - 1 - |t|];
        assert s[1..] == dropped + t;
        NonSpaceAllSpace(dropped);
        NonSpaceAppend(dropped, t);
        assert Collapse(s) == [' '] + Collapse(t);
      } else {
        CollapseNonSpace(s[1..]);
      }
    }
  }

  /** A single-spaced string is left as it is by collapsing. */
  lemma {:induction false} CollapseSingleSpaced(t: string)
    requires SingleSpaced(t)
    ensures Collapse(t) == t
    decreases |t|
  {
    if t != [] {
      assert SingleSpaced(t[1..]);
      CollapseSingleSpaced(t[1..]);
      if JsSpace(t[0]) {
        assert TrimStart(t[1..], JsSpace) == t[1..];
      }
    }
  }

  /** Slices of a single-spaced string are single-spaced. */
  lemma SliceSingleSpaced(t: string, i: int, j: int)
    requires SingleSpaced(t) && 0 <= i <= j <= |t|
    ensures SingleSpaced(t[i..j])
  {
    var u := t[i..j];
    forall k | 0 <= k < |u| - 1 && JsSpace(u[k])
      ensures !JsSpace(u[k + 1])
    {
      assert u[k] == t[i + k] && u[k + 1] == t[i + k + 1];
    }
  }

  /** Cutting whitespace off both ends keeps the non-whitespace characters. */
  lemma NonSpaceSlice(c: string, i: int, j: int)
    requires 0 <= i <= j <= |c| && AllSpace(c[..i], JsSpace) && AllSpace(c[j..], JsSpace)
    ensures NonSpace(c[i..j]) == NonSpace(c)
  {
    assert c == c[..i] + (c[i..j] + c[j..]);
    NonSpaceAppend(c[..i], c[i..j] + c[j..]);
    NonSpaceAppend(c[i..j], c[j..]);
    NonSpaceAllSpace(c[..i]);
    NonSpaceAllSpace(c[j..]);
  }

  /** Trimming a single-spaced string makes it clean and keeps its non-whitespace
      characters. */
  lemma TrimSingleSpaced(c: string)
    requires SingleSpaced(c)
    ensures Clean(Trim(c, JsSpace))
    ensures NonSpace(Trim(c, JsSpace)) == NonSpace(c)
  {
    var i, j := TrimBounds(c, JsSpace);
    SliceSingleSpaced(c, i, j);
    NonSpaceSlice(c, i, j);
    var t := c[i..j];
    assert t != [] ==> t[0] == c[i] && t[|t| - 1] == c[j - 1];
  }

  /** The cleaned title is clean and keeps every non-whitespace character of the title,
      in order. */
  lemma CleanTitleSpec(s: string)
    ensures Clean(CleanTitle(s))
    ensures NonSpace(CleanTitle(s)) == NonSpace(s)
  {
    CollapseShape(s);
    CollapseNonSpace(s);
    TrimSingleSpaced(Collapse(s));
  }

  /** A clean title is left as it is, so cleaning is idempotent. */
  lemma CleanTitleFixes(t: string)
    requires Clean(t)
    ensures CleanTitle(t) == t
    ensures CleanTitle(CleanTitle(t)) == CleanTitle(t)
  {
    CollapseSingleSpaced(t);
    assert TrimStart(t, JsSpace) == t;
    assert TrimEnd(t, JsSpace) == t;
  }

  lemma CleanTitleIdempotent(s: string)
    ensures CleanTitle(CleanTitle(s)) == CleanTitle(s)
  {
    CleanTitleSpec(s);
    CleanTitleFixes(CleanTitle(s));
  }

  // ----------------------------------------------------------------
  // Quoting: `"${String(v).replace(/"/g, '""')}"`.
  // ----------------------------------------------------------------

  /** Doubles every double quote. */
  function Escape(s: string): string
    decreases |s|
  {
    if s == [] then [] else (if s[0] == '"' then "\"\"" else [s[0]]) + Escape(s[1..])
  }

  /** One quoted field. */
  function Quote(s: string): string {
    "\"" + (Escape(s) + "\"")
  }

  /** Reads the rest of a quoted field after its opening quote: a doubled quote stands for
      one quote, and a single quote closes the field. Gives the field's text and what
      follows the closing quote, or None when the field is not closed. */
  function ReadQuoted(s: string): (r: Option<(string, string)>)
    ensures r.Some? ==> |r.value.1| < |s|
    decreases |s|
  {
    if s == [] then None
    else if s[0] == '"' then
      if |s| >= 2 && s[1] == '"' then
        match ReadQuoted(s[2..])
        case Some((f, rest)) => Some(("\"" + f, rest))
        case None => None
      else Some(("", s[1..]))
    else
      match ReadQuoted(s[1..])
      case Some((f, rest)) => Some(([s[0]] + f, rest))
      case None => None
  }

  /** Reading an escaped field back gives the original text, up to its closing quote. */
  lemma {:induction false} ReadEscaped(v: string, t: string)
    requires t == [] || t[0] != '"'
    ensures ReadQuoted(Escape(v) + ("\"" + t)) == Some((v, t))
    decreases |v|
  {
    var s := Escape(v) + ("\"" + t);
    if v == [] {
      assert s == "\"" + t;
      assert s[1..] == t;
    } else {
      var s' := Escape(v[1..]) + ("\"" + t);
      assert ReadQuoted(s') == Some((v[1..], t)) by {
        ReadEscaped(v[1..], t);
      }
      if v[0] == '"' {
        assert s == "\"\"" + s';
        assert s[2..] == s';
        assert v == "\"" + v[1..];
      } else {
        assert s == [v[0]] + s';
        assert s[1..] == s';
        assert v == [v[0]] + v[1..];
      }
    }
  }

  /** Takes the quotes off a whole field and undoes the doubling. */
  function Unquote(f: string): Option<string> {
    if f == [] || f[0] != '"' then None
    else match ReadQuoted(f[1..])
      case Some((v, rest)) => if rest == [] then Some(v) else None
      case None => None
  }

  /** Unquoting a quoted field recovers the original string. */
  lemma QuoteRoundTrip(s: string)
    ensures Unquote(Quote(s)) == Some(s)
  {
    ReadEscaped(s, []);
    assert Quote(s)[1..] == Escape(s) + ("\"" + []);
  }

  /** The inside of a quoted field as section 2, rule 7, of RFC 4180 allows it: any
      character but a double quote, or two double quotes in a row. */
  predicate WellEscaped(e: string)
    decreases |e|
  {
    if e == [] then true
    else if e[0] == '"' then |e| >= 2 && e[1] == '"' && WellEscaped(e[2..])
    else WellEscaped(e[1..])
  }

  /** Escaping gives a well-formed inside, one character longer per double quote. */
  lemma {:induction false} EscapeWellFormed(s: string)
    ensures WellEscaped(Escape(s))
    ensures |Escape(s)| == |s| + multiset(s)['"']
    decreases |s|
  {
    if s != [] {
      EscapeWellFormed(s[1..]);
      assert s == [s[0]] + s[1..];
      var e := Escape(s);
      if s[0] == '"' {
        assert e[2..] == Escape(s[1..]);
      } else {
        assert e[1..] == Escape(s[1..]);
      }
    }
  }

  // ----------------------------------------------------------------
  // Joining: `r.map(...).join(",")` and `rows.map(...).join("\n")`.
  // ----------------------------------------------------------------

  /** One line: the quoted fields separated by commas. */
  function RowText(r: seq<string>): string
    decreases |r|
  {
    if r == [] then "" else if |r| == 1 then Quote(r[0]) else Quote(r[0]) + ("," + RowText(r[1..]))
  }

  /** The whole text: the lines separated by line feeds. */
  function CsvText(rows: seq<seq<string>>): string
    decreases |rows|
  {
    if rows == [] then ""
    else if |rows| == 1 then RowText(rows[0])
    else RowText(rows[0]) + ("\n" + CsvText(rows[1..]))
  }

  /** Reads the fields of one line: the fields, what follows the line, and whether a line
      feed ended it (true) or the text did (false). */
  function ParseFields(s: string): (r: Option<(seq<string>, string, bool)>)
    ensures r.Some? ==> |r.value.1| < |s|
    decreases |s|
  {
    if s == [] || s[0] != '"' then None
    else
      match ReadQuoted(s[1..])
      case None => None
      case Some((f, rest)) =>
        if rest == [] then Some(([f], [], false))
        else if rest[0] == ',' then
          match ParseFields(rest[1..])
          case None => None
          case Some((fs, more, next)) => Some(([f] + fs, more, next))
        else if rest[0] == '\n' then Some(([f], rest[1..], true))
        else None
  }

  /** Reads a whole text of quoted fields. */
  function ParseCsv(s: string): Option<seq<seq<string>>>
    decreases |s|
  {
    match ParseFields(s)
    case None => None
    case Some((fs, rest, next)) =>
      if !next then Some([fs])
      else
        match ParseCsv(rest)
        case None => None
        case Some(rows) => Some([fs] + rows)
  }

  /** A quoted field followed by the end of the text or of the line is a whole line. */
  lemma ParseLastField(v: string, tail: string)
    requires tail == [] || tail[0] == '\n'
    ensures ParseFields(Quote(v) + tail) == Some(([v], if tail == [] then [] else tail[1..], tail != []))
  {
    var s := Quote(v) + tail;
    var inner := Escape(v) + ("\"" + tail);
    assert s[0] == '"' && s[1..] == inner by {
      assert s == "\"" + inner;
    }
    assert ReadQuoted(inner) == Some((v, tail)) by {
      ReadEscaped(v, tail);
    }
  }

  /** A quoted field followed by a comma starts the fields of the rest of the line. */
  lemma ParseNextField(v: string, t: string)
    requires ParseFields(t).Some?
    ensures ParseFields(Quote(v) + ("," + t))
         == Some(([v] + ParseFields(t).value.0, ParseFields(t).value.1, ParseFields(t).value.2))
  {
    var s := Quote(v) + ("," + t);
    var inner := Escape(v) + ("\"" + ("," + t));
    assert s[0] == '"' && s[1..] == inner by {
      assert s == "\"" + inner;
    }
    assert ReadQuoted(inner) == Some((v, "," + t)) by {
      ReadEscaped(v, "," + t);
    }
    assert ("," + t)[1..] == t;
  }

  /** A line of one field. */
  lemma ParseOneField(r: seq<string>, tail: string)
    requires |r| == 1
    requires tail == [] || tail[0] == '\n'
    ensures ParseFields(RowText(r) + tail) == Some((r, if tail == [] then [] else tail[1..], tail != []))
  {
    assert RowText(r) == Quote(r[0]);
    ParseLastField(r[0], tail);
    assert [r[0]] == r;
  }

  /** A line of several fields reads as its first field followed by the rest. */
  lemma ParseMoreFields(r: seq<string>, tail: string, after: string, ended: bool)
    requires |r| >= 2
    requires ParseFields(RowText(r[1..]) + tail) == Some((r[1..], after, ended))
    ensures ParseFields(RowText(r) + tail) == Some((r, after, ended))
  {
    var rest := RowText(r[1..]) + tail;
    assert RowText(r) + tail == Quote(r[0]) + ("," + rest);
    ParseNextField(r[0], rest);
    assert [r[0]] + r[1..] == r;
  }

  /** A line, followed by the end of the text or by a line feed, reads back as its fields. */
  lemma {:induction false} ParseRowText(r: seq<string>, tail: string)
    requires r != []
    requires tail == [] || tail[0] == '\n'
    ensures ParseFields(RowText(r) + tail) == Some((r, if tail == [] then [] else tail[1..], tail != []))
    decreases |r|
  {
    if |r| == 1 {
      ParseOneField(r, tail);
    } else {
      ParseRowText(r[1..], tail);
      ParseMoreFields(r, tail, if tail == [] then [] else tail[1..], tail != []);
    }
  }

  /** The exported text reads back as exactly the rows it was built from. */
  lemma {:induction false} CsvRoundTrip(rows: seq<seq<string>>)
    requires rows != []
    requires forall i :: 0 <= i < |rows| ==> rows[i] != []
    ensures ParseCsv(CsvText(rows)) == Some(rows)
    decreases |rows|
  {
    if |rows| == 1 {
      ParseRowText(rows[0], []);
      assert RowText(rows[0]) + [] == RowText(rows[0]);
      assert [rows[0]] == rows;
    } else {
      var rest := CsvText(rows[1..]);
      ParseRowText(rows[0], "\n" + rest);
      assert ("\n" + rest)[1..] == rest;
      CsvRoundTrip(rows[1..]);
      assert [rows[0]] + rows[1..] == rows;
    }
  }

  // ----------------------------------------------------------------
  // Rows.
  // ----------------------------------------------------------------

  /** `String(d.key || "")`. */
  function Field(d: Json, key: string): string {
    JsString(JsOr(Member(d, key), JStr("")))
  }

  /** The row of one record. Reading a property of null raises a TypeError, and so does
      a title that is truthy but not a string, which has no `replace` method. */
  function RecordRow(d: Json): (r: Outcome<seq<string>>)
    ensures r.Raised? <==> d.JNull? || (JsTruthy(Member(d, "tittel")) && !Member(d, "tittel").JStr?)
    ensures r.Raised? ==> r.error == TypeError
    ensures r.Ok? ==> |r.value| == |HEADER|
  {
    if d.JNull? then Raised(TypeError)
    else
      var title := JsOr(Member(d, "tittel"), JStr(""));
      if !title.JStr? then Raised(TypeError)
      else
        var link := JsOr(Member(d, "journal_link"), JsOr(Member(d, "detalj_link"), JStr("")));
        Ok([Field(d, "dato"), Field(d, "dokumentID"), CleanTitle(title.s), Field(d, "dokumenttype"),
            Field(d, "avsender_mottaker"), Field(d, "status"), JsString(link)])
  }

  /** The columns of a row, one per header entry: the date, id, type, counterpart and
      status as strings ("" when falsy), the cleaned title, and the first truthy link. */
  lemma RecordRowFields(d: Json)
    requires RecordRow(d).Ok?
    ensures var row := RecordRow(d).value;
      && row[0] == Field(d, "dato") && row[1] == Field(d, "dokumentID")
      && row[2] == (if JsTruthy(Member(d, "tittel")) then CleanTitle(Member(d, "tittel").s) else "")
      && row[3] == Field(d, "dokumenttype") && row[4] == Field(d, "avsender_mottaker")
      && row[5] == Field(d, "status")
      && row[6] == if JsTruthy(Member(d, "journal_link")) then JsString(Member(d, "journal_link"))
                   else if JsTruthy(Member(d, "detalj_link")) then JsString(Member(d, "detalj_link"))
                   else ""
  {
  }

  /** The rows of the records, in order, or the error of the first record that raises. */
  function RecordRows(ds: seq<Json>): (r: Outcome<seq<seq<string>>>)
    ensures r.Ok? <==> forall i :: 0 <= i < |ds| ==> RecordRow(ds[i]).Ok?
    ensures r.Raised? ==> r.error == TypeError
    ensures r.Ok? ==> |r.value| == |ds| && forall i :: 0 <= i < |ds| ==> r.value[i] == RecordRow(ds[i]).value
    decreases |ds|
  {
    if ds == [] then Ok([])
    else
      var init := ds[..|ds| - 1];
      assert forall i :: 0 <= i < |init| ==> init[i] == ds[i];
      match (RecordRows(init), RecordRow(ds[|ds| - 1]))
      case (Ok(rows), Ok(row)) => Ok(rows + [row])
      case (Raised(e), _) => Raised(e)
      case (_, Raised(e)) => Raised(e)
  }

  /** One more record that does not raise adds its row. */
  lemma RecordRowsSnoc(ds: seq<Json>, i: int)
    requires 0 <= i < |ds| && RecordRows(ds[..i]).Ok? && RecordRow(ds[i]).Ok?
    ensures RecordRows(ds[..i + 1]) == Ok(RecordRows(ds[..i]).value + [RecordRow(ds[i]).value])
  {
    var prefix := ds[..i + 1];
    assert prefix[..|prefix| - 1] == ds[..i] && prefix[|prefix| - 1] == ds[i];
  }

  /** A record that raises makes the whole export raise. */
  lemma RecordRowsRaisedAt(ds: seq<Json>, i: int)
    requires 0 <= i < |ds| && RecordRow(ds[i]).Raised?
    ensures RecordRows(ds) == Raised(TypeError)
  {
  }

  /** The text of the header and the rows reads back as them. */
  lemma ExportedText(rows: seq<seq<string>>, filtered: seq<Json>)
    requires RecordRows(filtered).Ok? && rows == [HEADER] + RecordRows(filtered).value
    ensures ParseCsv(CsvText(rows)) == Some(rows)
  {
    forall k | 0 <= k < |rows|
      ensures rows[k] != []
    {
      if k > 0 {
        assert rows[k] == RecordRows(filtered).value[k - 1] == RecordRow(filtered[k - 1]).value;
      }
    }
    CsvRoundTrip(rows);
  }

  /** `exportCSV()` up to the download: the header, then one row per record, quoted and
      joined. The text reads back as the header followed by the records' rows. */
  method ExportCsv(filtered: seq<Json>) returns (r: Outcome<string>)
    ensures RecordRows(filtered).Raised? ==> r == Raised(TypeError)
    ensures RecordRows(filtered).Ok? ==> r == Ok(CsvText([HEADER] + RecordRows(filtered).value))
    ensures r.Ok? ==> ParseCsv(r.value) == Some([HEADER] + RecordRows(filtered).value)
  {
    var rows := [HEADER];
    assert filtered[..0] == [];
    for i := 0 to |filtered|
      invariant RecordRows(filtered[..i]).Ok? && rows == [HEADER] + RecordRows(filtered[..i]).value
    {
      var row := RecordRow(filtered[i]);
      if row.Raised? {
        RecordRowsRaisedAt(filtered, i);
        return Raised(TypeError);
      }
      RecordRowsSnoc(filtered, i);
      rows := rows + [row.value];
    }
    assert filtered[..|filtered|] == filtered;
    ExportedText(rows, filtered);
    r := Ok(CsvText(rows));
  }
}
