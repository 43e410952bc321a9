/** The text built by `exportCSV` (src/shared/lib/csv.ts, lines 3-11): an
    unquoted header line of the first row's keys, then one line per row with every
    field quoted as in section 2, rule 7 of RFC 4180, lines separated by LF. */
module Csv {
  import opened Wrappers

  /** One own property of a row object: its key and `String(value)`, or None when
      the value is `undefined`. */
  datatype Field = Field(key: string, value: Option<string>)
  type Row = seq<Field>

  /** `Object.keys(row)`, in property order. */
  function Keys(r: Row): (ks: seq<string>)
    ensures |ks| == |r|
    ensures forall i :: 0 <= i < |r| ==> ks[i] == r[i].key
  {
    seq(|r|, i requires 0 <= i < |r| => r[i].key)
  }

  /** `String((r as any)[h])`: the first property named `key`, and "undefined" when
      there is none or its value is undefined. */
  function Render(r: Row, key: string): (s: string)
    ensures s == "undefined" || exists i :: 0 <= i < |r| && r[i].key == key && r[i].value == Some(s)
  {
    if r == [] then "undefined"
    else if r[0].key == key then r[0].value.GetOr("undefined")
    else Render(r[1..], key)
  }

  lemma {:induction false} RenderMissing(r: Row, key: string)
    requires forall i :: 0 <= i < |r| ==> r[i].key != key
    ensures Render(r, key) == "undefined"
  {
    if r != [] {
      RenderMissing(r[1..], key);
    }
  }

  lemma {:induction false} RenderFound(r: Row, key: string, i: int)
    requires 0 <= i < |r| && r[i].key == key
    requires forall j :: 0 <= j < i ==> r[j].key != key
    ensures Render(r, key) == r[i].value.GetOr("undefined")
  {
    if i > 0 {
      RenderFound(r[1..], key, i - 1);
    }
  }

  /** `parts.join(sep)`. */
  function Join(sep: string, parts: seq<string>): (r: string)
    decreases |parts|
  {
    if |parts| == 0 then ""
    else if |parts| == 1 then parts[0]
    else parts[0] + sep + Join(sep, parts[1..])
  }

  /** `s.replace(/"/g, '""')`. */
  function EscapeQuotes(s: string): (r: string)
    ensures |r| >= |s|
  {
    if s == [] then []
    else (if s[0] == '"' then "\"\"" else [s[0]]) + EscapeQuotes(s[1..])
  }

  /** A field in double quotes with its inner quotes doubled. */
  function Quote(s: string): (r: string)
    ensures |r| >= 2 && r[0] == '"' && r[|r| - 1] == '"'
  {
    "\"" + EscapeQuotes(s) + "\""
  }

  /** The rendered values of one row, in header order. */
  function Values(r: Row, headers: seq<string>): (vs: seq<string>)
    ensures |vs| == |headers|
    ensures forall i :: 0 <= i < |headers| ==> vs[i] == Render(r, headers[i])
  {
    seq(|headers|, i requires 0 <= i < |headers| => Render(r, headers[i]))
  }

  /** Every value quoted. */
  function QuoteAll(values: seq<string>): (parts: seq<string>)
    ensures |parts| == |values|
    ensures forall i :: 0 <= i < |values| ==> parts[i] == Quote(values[i])
  {
    seq(|values|, i requires 0 <= i < |values| => Quote(values[i]))
  }

  /** `headers.map(h => quoted field).join(",")`. */
  function DataLine(r: Row, headers: seq<string>): (line: string)
    ensures |headers| >= 1 ==> |line| >= 2 && line[0] == '"' && EndsWith(line, '"')
  {
    var parts := QuoteAll(Values(r, headers));
    if |headers| >= 1 then
      JoinStartsWith(",", parts);
      JoinEndsWith(",", parts, '"');
      Join(",", parts)
    else Join(",", parts)
  }

  /** `rows.map(r => data line)`. */
  function DataLines(rows: seq<Row>, headers: seq<string>): (lines: seq<string>)
    ensures |lines| == |rows|
    ensures forall i :: 0 <= i < |rows| ==> lines[i] == DataLine(rows[i], headers)
  {
    seq(|rows|, i requires 0 <= i < |rows| => DataLine(rows[i], headers))
  }

  /** The whole text, or None for an empty row list (the early `return`). */
  function CsvText(rows: seq<Row>): (text: Option<string>)
    ensures text.None? <==> |rows| == 0
  {
    if |rows| == 0 then None
    else
      var headers := Keys(rows[0]);
      Some(Join("\n", [Join(",", headers)] + DataLines(rows, headers)))
  }

  // ---------------------------------------------------------------- reading the text back

  /** Index of the first `c` in `s`, or |s| when there is none. */
  function IndexOf(c: char, s: string): (i: nat)
    ensures i <= |s|
    ensures i < |s| ==> s[i] == c
    ensures forall j :: 0 <= j < i ==> s[j] != c
  {
    if s == [] then 0
    else if s[0] == c then 0
    else 1 + IndexOf(c, s[1..])
  }

  /** `s.split(c)`. */
  function Split(c: char, s: string): (parts: seq<string>)
    ensures |parts| >= 1
    decreases |s|
  {
    var i := IndexOf(c, s);
    if i == |s| then [s] else [s[..i]] + Split(c, s[i + 1..])
  }

  /** Reads the inside of a quoted field (after its opening quote): a doubled quote
      stands for one quote, a single quote closes the field. Returns the content and
      what follows the closing quote. */
  function ParseQuoted(s: string): (res: Option<(string, string)>)
    ensures res.Some? ==> |res.value.1| < |s|
  {
    if s == [] then None
    else if s[0] == '"' then
      if |s| >= 2 && s[1] == '"' then
        match ParseQuoted(s[2..])
        case None => None
        case Some((v, rest)) => Some(("\"" + v, rest))
      else Some(("", s[1..]))
    else
      match ParseQuoted(s[1..])
      case None => None
      case Some((v, rest)) => Some(([s[0]] + v, rest))
  }

  /** Reads quoted fields separated by commas up to the end of a line. */
  function ParseLine(s: string): (res: Option<(seq<string>, string)>)
    ensures res.Some? ==> |res.value.1| < |s| && |res.value.0| >= 1
    decreases |s|
  {
    if s == [] || s[0] != '"' then None
    else
      match ParseQuoted(s[1..])
      case None => None
      case Some((v, rest)) =>
        if rest != [] && rest[0] == ',' then
          match ParseLine(rest[1..])
          case None => None
          case Some((vs, tail)) => Some(([v] + vs, tail))
        else Some(([v], rest))
  }

  /** Reads data lines separated by LF, with nothing after the last one. */
  function ParseRows(s: string): Option<seq<seq<string>>>
    decreases |s|
  {
    match ParseLine(s)
    case None => None
    case Some((fields, rest)) =>
      if rest == [] then Some([fields])
      else if rest[0] == '\n' then
        match ParseRows(rest[1..])
        case None => None
        case Some(more) => Some([fields] + more)
      else None
  }

  /** Splits a document into its header keys and the values of its data lines. */
  function ParseCsv(text: string): Option<(seq<string>, seq<seq<string>>)>
  {
    var i := IndexOf('\n', text);
    if i == |text| then None
    else
      match ParseRows(text[i + 1..])
      case None => None
      case Some(rows) => Some((Split(',', text[..i]), rows))
  }

  // ---------------------------------------------------------------- round trip

  lemma {:induction false} QuotedRoundTrip(v: string, tail: string)
    requires tail == [] || tail[0] != '"'
    ensures ParseQuoted(EscapeQuotes(v) + "\"" + tail) == Some((v, tail))
    decreases |v|
  {
    var s := EscapeQuotes(v) + "\"" + tail;
    if v == [] {
      assert s == "\"" + tail;
      assert s[1..] == tail;
    } else {
      QuotedRoundTrip(v[1..], tail);
      var inner := EscapeQuotes(v[1..]) + "\"" + tail;
      if v[0] == '"' {
        assert s == "\"\"" + inner;
        assert s[2..] == inner;
        assert "\"" + v[1..] == v;
      } else {
        assert s == [v[0]] + inner;
        assert s[1..] == inner;
        assert [v[0]] + v[1..] == v;
      }
    }
  }

  lemma JoinCons(sep: string, parts: seq<string>)
    requires |parts| >= 2
    ensures Join(sep, parts) == parts[0] + sep + Join(sep, parts[1..])
  {
  }

  /** The first field of a line, read back: its value, then what follows its closing quote. */
  lemma FirstFieldRoundTrip(v: string, after: string)
    requires after == [] || after[0] != '"'
    ensures var s := Quote(v) + after;
            s != [] && s[0] == '"' && ParseQuoted(s[1..]) == Some((v, after))
  {
    var s := Quote(v) + after;
    assert s == "\"" + (EscapeQuotes(v) + "\"" + after);
    assert s[1..] == EscapeQuotes(v) + "\"" + after;
    QuotedRoundTrip(v, after);
  }

  lemma {:induction false} LineRoundTrip(values: seq<string>, parts: seq<string>, tail: string)
    requires |values| >= 1 && |parts| == |values|
    requires forall i :: 0 <= i < |parts| ==> parts[i] == Quote(values[i])
    requires tail == [] || tail[0] == '\n'
    ensures ParseLine(Join(",", parts) + tail) == Some((values, tail))
    decreases |values|
  {
    var v := values[0];
    if |values| == 1 {
      assert Join(",", parts) == Quote(v);
      LastFieldRoundTrip(v, tail);
      assert [v] == values;
    } else {
      var more := Join(",", parts[1..]) + tail;
      JoinCons(",", parts);
      assert Join(",", parts) + tail == Quote(v) + ("," + more);
      LineRoundTrip(values[1..], parts[1..], tail);
      NextFieldRoundTrip(v, more, values[1..], tail);
      assert [v] + values[1..] == values;
    }
  }

  /** A text without quotes is left as it is by the escaping. */
  lemma {:induction false} EscapeQuotesPlain(s: string)
    requires '"' !in s
    ensures EscapeQuotes(s) == s
    decreases |s|
  {
    if s != [] {
      assert '"' !in s[1..] by {
        forall k | 0 <= k < |s| - 1 ensures s[1..][k] != '"' {
          assert s[1..][k] == s[k + 1];
        }
      }
      EscapeQuotesPlain(s[1..]);
      assert [s[0]] + s[1..] == s;
    }
  }

  /** The joined text begins with the first part. */
  lemma JoinStartsWith(sep: string, parts: seq<string>)
    requires |parts| >= 1
    ensures StartsWith(Join(sep, parts), parts[0])
  {
    if |parts| >= 2 {
      JoinCons(sep, parts);
      assert (parts[0] + sep + Join(sep, parts[1..]))[..|parts[0]|] == parts[0];
    }
  }

  /** A quoted field at the end of a line reads back as the line's one value. */
  lemma LastFieldRoundTrip(v: string, tail: string)
    requires tail == [] || tail[0] == '\n'
    ensures ParseLine(Quote(v) + tail) == Some(([v], tail))
  {
    FirstFieldRoundTrip(v, tail);
  }

  /** A quoted field followed by a comma and a line that reads back: one more value in front. */
  lemma NextFieldRoundTrip(v: string, more: string, vs: seq<string>, tail: string)
    requires ParseLine(more) == Some((vs, tail))
    ensures ParseLine(Quote(v) + ("," + more)) == Some(([v] + vs, tail))
  {
    FirstFieldRoundTrip(v, "," + more);
    assert ("," + more)[1..] == more;
  }

  lemma {:induction false} RowsRoundTrip(vrows: seq<seq<string>>, lines: seq<string>)
    requires |vrows| >= 1 && |lines| == |vrows|
    requires forall i :: 0 <= i < |vrows| ==> |vrows[i]| >= 1
    requires forall i :: 0 <= i < |vrows| ==>
               lines[i] == Join(",", QuoteAll(vrows[i]))
    ensures ParseRows(Join("\n", lines)) == Some(vrows)
    decreases |vrows|
  {
    var vs := vrows[0];
    var parts := QuoteAll(vs);
    if |vrows| == 1 {
      LineRoundTrip(vs, parts, []);
      assert Join(",", parts) + [] == Join("\n", lines);
      assert [vs] == vrows;
    } else {
      var rest := Join("\n", lines[1..]);
      JoinCons("\n", lines);
      LineRoundTrip(vs, parts, "\n" + rest);
      assert Join("\n", lines) == Join(",", parts) + ("\n" + rest);
      assert ("\n" + rest)[1..] == rest;
      RowsRoundTrip(vrows[1..], lines[1..]);
      assert [vs] + vrows[1..] == vrows;
    }
  }

  lemma {:induction false} JoinAvoids(c: char, sep: string, parts: seq<string>)
    requires c !in sep
    requires forall i :: 0 <= i < |parts| ==> c !in parts[i]
    ensures c !in Join(sep, parts)
    decreases |parts|
  {
    if |parts| >= 2 {
      JoinAvoids(c, sep, parts[1..]);
    }
  }

  lemma IndexOfAfter(c: char, a: string, b: string)
    requires c !in a
    ensures IndexOf(c, a + [c] + b) == |a|
  {
    var s := a + [c] + b;
    assert s[|a|] == c;
    assert forall j :: 0 <= j < |a| ==> s[j] == a[j];
  }

  lemma {:induction false} SplitJoin(c: char, parts: seq<string>)
    requires |parts| >= 1
    requires forall i :: 0 <= i < |parts| ==> c !in parts[i]
    ensures Split(c, Join([c], parts)) == parts
    decreases |parts|
  {
    var s := Join([c], parts);
    if |parts| == 1 {
      assert forall j :: 0 <= j < |s| ==> s[j] in parts[0];
    } else {
      var rest := Join([c], parts[1..]);
      JoinCons([c], parts);
      IndexOfAfter(c, parts[0], rest);
      assert s[..|parts[0]|] == parts[0];
      assert s[|parts[0]| + 1..] == rest;
      SplitJoin(c, parts[1..]);
      assert [parts[0]] + parts[1..] == parts;
    }
  }

  /** Reading the text back gives the first row's keys and, for every row, its
      rendered values in header order: one field per header, keys absent from the
      first row dropped, quotes undoubled. Needs at least one key and keys free of
      commas and line feeds, since the header line is not quoted. */
  lemma CsvRoundTrip(rows: seq<Row>)
    requires |rows| >= 1
    requires |rows[0]| >= 1
    requires forall i :: 0 <= i < |rows[0]| ==> ',' !in rows[0][i].key && '\n' !in rows[0][i].key
    ensures CsvText(rows).Some?
    ensures ParseCsv(CsvText(rows).value)
            == Some((Keys(rows[0]), seq(|rows|, i requires 0 <= i < |rows| => Values(rows[i], Keys(rows[0])))))
  {
    var headers := Keys(rows[0]);
    var header := Join(",", headers);
    var lines := DataLines(rows, headers);
    var vrows := seq(|rows|, i requires 0 <= i < |rows| => Values(rows[i], headers));
    var body := Join("\n", lines);
    CsvTextLines(rows);
    JoinAvoids('\n', ",", headers);
    HeaderThenBody(header, body);
    SplitJoin(',', headers);
    RowsRoundTrip(vrows, lines);
  }

  /** The document is its header line, an LF, and its data lines joined by LF. */
  lemma CsvTextLines(rows: seq<Row>)
    requires |rows| >= 1
    ensures var headers := Keys(rows[0]);
            CsvText(rows) == Some(Join(",", headers) + "\n" + Join("\n", DataLines(rows, headers)))
  {
    var headers := Keys(rows[0]);
    var lines := DataLines(rows, headers);
    var all := [Join(",", headers)] + lines;
    JoinCons("\n", all);
    assert all[1..] == lines;
  }

  /** A header line without LF is found again in front of the first LF. */
  lemma HeaderThenBody(header: string, body: string)
    requires '\n' !in header
    ensures var text := header + "\n" + body;
            IndexOf('\n', text) == |header| && text[..|header|] == header && text[|header| + 1..] == body
  {
    IndexOfAfter('\n', header, body);
    var text := header + "\n" + body;
    assert text[..|header|] == header;
    assert text[|header| + 1..] == body;
  }

  /** `s` begins with `prefix`. */
  predicate StartsWith(s: string, prefix: string) {
    |prefix| <= |s| && s[..|prefix|] == prefix
  }

  /** `s` is not empty and its last character is `c`. */
  predicate EndsWith(s: string, c: char) {
    |s| > 0 && s[|s| - 1] == c
  }

  /** The text ends with the closing quote of the last field: no trailing newline. */
  lemma NoTrailingNewline(rows: seq<Row>)
    requires |rows| >= 1 && |rows[0]| >= 1
    ensures EndsWith(CsvText(rows).value, '"')
  {
    var headers := Keys(rows[0]);
    var text := Join("\n", [Join(",", headers)] + DataLines(rows, headers));
    assert CsvText(rows) == Some(text);
    LastDataLineEndsWithQuote(rows, headers);
    LastLineEndsWith(Join(",", headers), DataLines(rows, headers), '"');
    assert EndsWith(text, '"');
  }

  /** With at least one field per line, the last data line ends with its last closing quote. */
  lemma LastDataLineEndsWithQuote(rows: seq<Row>, headers: seq<string>)
    requires |rows| >= 1 && |headers| >= 1
    ensures EndsWith(DataLines(rows, headers)[|rows| - 1], '"')
  {
    var last := rows[|rows| - 1];
    JoinEndsWith(",", QuoteAll(Values(last, headers)), '"');
    assert DataLines(rows, headers)[|rows| - 1] == DataLine(last, headers);
  }

  /** A header followed by lines ends as the last line does. */
  lemma LastLineEndsWith(header: string, lines: seq<string>, c: char)
    requires |lines| >= 1 && EndsWith(lines[|lines| - 1], c)
    ensures EndsWith(Join("\n", [header] + lines), c)
  {
    var all := [header] + lines;
    assert all[|all| - 1] == lines[|lines| - 1];
    JoinEndsWith("\n", all, c);
  }

  /** A join whose last part ends with `c` ends with `c`. */
  lemma {:induction false} JoinEndsWith(sep: string, parts: seq<string>, c: char)
    requires |parts| >= 1 && EndsWith(parts[|parts| - 1], c)
    ensures EndsWith(Join(sep, parts), c)
    decreases |parts|
  {
    if |parts| >= 2 {
      JoinEndsWith(sep, parts[1..], c);
      assert parts[1..][|parts| - 2] == parts[|parts| - 1];
    }
  }

  /** The first line is the first row's keys joined by commas, unquoted. */
  lemma HeaderLine(rows: seq<Row>)
    requires |rows| >= 1
    ensures var text := CsvText(rows).value; var header := Join(",", Keys(rows[0]));
            |text| > |header| && text[..|header|] == header && text[|header|] == '\n'
  {
    var headers := Keys(rows[0]);
    var all := [Join(",", headers)] + seq(|rows|, i requires 0 <= i < |rows| => DataLine(rows[i], headers));
    JoinCons("\n", all);
  }
}
