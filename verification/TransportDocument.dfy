/** The escaped row format: fields between tabs, rows between newlines. */
module TransportDocument {
  import opened Basics

  datatype ParseError = BadField | DanglingEscape

  datatype Result<T> = Ok(value: T) | Failed(error: ParseError)

  type Row = seq<string>

  // ---- Escaping ----

  function EscapeChar(c: char): string {
    if c == '\\' then "\\\\"
    else if c == '\t' then "\\t"
    else if c == '\n' then "\\n"
    else if c == '\r' then "\\r"
    else [c]
  }

  function Escape(value: string): string {
    if value == "" then "" else Escape(value[..|value| - 1]) + EscapeChar(value[|value| - 1])
  }

  function UnescapeChar(c: char): Option<char> {
    if c == 'n' then Some('\n')
    else if c == 'r' then Some('\r')
    else if c == 't' then Some('\t')
    else if c == '\\' then Some('\\')
    else None
  }

  /** The text an escaped field stands for, if it is one. */
  function Unescape(value: string): Option<string> {
    if value == "" then Some("")
    else if value[0] != '\\' then
      var rest := Unescape(value[1..]);
      if rest.None? then None else Some([value[0]] + rest.value)
    else if |value| < 2 || UnescapeChar(value[1]).None? then None
    else
      var rest := Unescape(value[2..]);
      if rest.None? then None else Some([UnescapeChar(value[1]).value] + rest.value)
  }

  // ---- Rows ----

  function JoinFields(fields: Row): string {
    if fields == [] then ""
    else if |fields| == 1 then Escape(fields[0])
    else JoinFields(fields[..|fields| - 1]) + "\t" + Escape(fields[|fields| - 1])
  }

  function FormatRow(fields: Row): string { JoinFields(fields) + "\n" }

  function FormatRows(rows: seq<Row>): string {
    if rows == [] then "" else FormatRow(rows[0]) + FormatRows(rows[1..])
  }

  /** Reading a row: the fields so far, the raw text of the current one, and a waiting backslash. */
  datatype Scan = Scan(fields: Row, current: string, pending: bool) | BadScan

  function EndField(s: Scan): Scan
    requires s.Scan?
  {
    var field := Unescape(s.current);
    if field.None? then BadScan else Scan(s.fields + [field.value], "", false)
  }

  function ScanChar(s: Scan, c: char): Scan
    requires s.Scan?
  {
    if s.pending then Scan(s.fields, s.current + "\\" + [c], false)
    else if c == '\\' then s.(pending := true)
    else if c == '\t' then EndField(s)
    else s.(current := s.current + [c])
  }

  function ScanAll(s: Scan, line: string): Scan
    decreases |line|
  {
    if s.BadScan? || line == "" then s else ScanAll(ScanChar(s, line[0]), line[1..])
  }

  const NEW_SCAN := Scan([], "", false)

  function EndRow(s: Scan): Result<Row> {
    if s.BadScan? then Failed(BadField)
    else if s.pending then Failed(DanglingEscape)
    else var e := EndField(s); if e.BadScan? then Failed(BadField) else Ok(e.fields)
  }

  function ParseRow(line: string): Result<Row> { EndRow(ScanAll(NEW_SCAN, line)) }

  // ---- Documents ----

  function IndexOf(text: string, c: char, from: nat): (at: int)
    requires from <= |text|
    ensures at == -1 || from <= at < |text|
    ensures at >= 0 ==> text[at] == c && forall i :: from <= i < at ==> text[i] != c
    ensures at == -1 ==> forall i :: from <= i < |text| ==> text[i] != c
    decreases |text| - from
  {
    if from == |text| then -1 else if text[from] == c then from else IndexOf(text, c, from + 1)
  }

  function StripReturn(line: string): string {
    if line != "" && line[|line| - 1] == '\r' then line[..|line| - 1] else line
  }

  /** The rows of a document; blank lines do not count, and the first bad row fails it all. */
  function Parse(document: string): Result<seq<Row>>
    decreases |document|
  {
    if document == "" then Ok([])
    else
      var newline := IndexOf(document, '\n', 0);
      var line := StripReturn(if newline < 0 then document else document[..newline]);
      var rest := if newline < 0 then "" else document[newline + 1..];
      if line == "" then Parse(rest)
      else
        var row := ParseRow(line);
        if row.Failed? then Failed(row.error)
        else
          var rows := Parse(rest);
          if rows.Failed? then rows else Ok([row.value] + rows.value)
  }

  /** A row written as an empty line. */
  predicate Blank(fields: Row) { fields == [] || fields == [""] }

  function NonBlank(rows: seq<Row>): seq<Row> {
    if rows == [] then [] else (if Blank(rows[0]) then [] else [rows[0]]) + NonBlank(rows[1..])
  }

  // ---- Unescaping undoes escaping ----

  lemma {:induction false} EscapeFront(value: string)
    requires value != ""
    ensures Escape(value) == EscapeChar(value[0]) + Escape(value[1..])
  {
    hide EscapeChar;
    var n := |value| - 1;
    if n == 0 {
      EscapeNothing(value[..n]);
      EscapeNothing(value[1..]);
      assert "" + EscapeChar(value[0]) == EscapeChar(value[0]) + "";
    } else {
      EscapeFront(value[..n]);
      EscapeLast(value);
      EscapeLast(value[1..]);
      assert value[..n][1..] == value[1..][..n - 1];
    }
  }

  lemma EscapeLast(value: string)
    requires value != ""
    ensures Escape(value) == Escape(value[..|value| - 1]) + EscapeChar(value[|value| - 1])
  {
  }

  /** Every field survives escaping and unescaping. */
  lemma {:induction false} UnescapeEscape(value: string)
    ensures Unescape(Escape(value)) == Some(value)
  {
    hide Escape;
    if value == "" {
      EscapeNothing(value);
    } else {
      EscapeFront(value);
      UnescapeEscape(value[1..]);
      var e := Escape(value[1..]);
      var front := EscapeChar(value[0]);
      assert (front + e)[|front|..] == e;
      assert value == [value[0]] + value[1..];
    }
  }

  lemma EscapeNothing(value: string)
    requires value == ""
    ensures Escape(value) == ""
  {
  }

  /** An escaped field is one line of one field. */
  lemma EscapeIsPlain(value: string)
    ensures forall i :: 0 <= i < |Escape(value)| ==> Escape(value)[i] !in {'\t', '\n', '\r'}
    ensures Escape(value) == "" <==> value == ""
  {
  }

  // ---- Reading back a row ----

  lemma {:induction false} ScanConcat(s: Scan, a: string, b: string)
    ensures ScanAll(s, a + b) == ScanAll(ScanAll(s, a), b)
    decreases |a|
  {
    if a == "" {
      assert a + b == b;
    } else if s.Scan? {
      assert (a + b)[1..] == a[1..] + b;
      ScanConcat(ScanChar(s, a[0]), a[1..], b);
    }
  }

  lemma ScanOne(s: Scan, c: char)
    requires s.Scan?
    ensures ScanAll(s, [c]) == ScanChar(s, c)
  {
    assert [c][1..] == "";
  }

  lemma ScanEscapedChar(s: Scan, c: char)
    requires s.Scan? && !s.pending
    ensures ScanAll(s, EscapeChar(c)) == s.(current := s.current + EscapeChar(c))
  {
    var e := EscapeChar(c);
    if |e| == 1 {
      ScanOne(s, c);
    } else {
      assert e == ['\\'] + [e[1]];
      ScanConcat(s, ['\\'], [e[1]]);
      ScanOne(s, '\\');
      ScanOne(s.(pending := true), e[1]);
      assert s.current + "\\" + [e[1]] == s.current + e;
    }
  }

  lemma {:induction false} ScanEscaped(s: Scan, value: string)
    requires s.Scan? && !s.pending
    ensures ScanAll(s, Escape(value)) == s.(current := s.current + Escape(value))
  {
    hide EscapeChar;
    if value != "" {
      var n := |value| - 1;
      ScanEscaped(s, value[..n]);
      ScanConcat(s, Escape(value[..n]), EscapeChar(value[n]));
      ScanEscapedChar(s.(current := s.current + Escape(value[..n])), value[n]);
      assert s.current + Escape(value[..n]) + EscapeChar(value[n]) == s.current + Escape(value);
    }
  }

  /** What a row looks like to the reader just before its last field ends. */
  lemma {:induction false} ScanRow(fields: Row)
    requires fields != []
    ensures var n := |fields| - 1;
            ScanAll(NEW_SCAN, JoinFields(fields)) == Scan(fields[..n], Escape(fields[n]), false)
  {
    hide ScanChar, Escape, ScanAll;
    var n := |fields| - 1;
    if n == 0 {
      ScanEscaped(NEW_SCAN, fields[0]);
    } else {
      var front := fields[..n];
      ScanRow(front);
      var s := ScanAll(NEW_SCAN, JoinFields(front));
      ScanConcat(NEW_SCAN, JoinFields(front), ['\t'] + Escape(fields[n]));
      assert JoinFields(fields) == JoinFields(front) + (['\t'] + Escape(fields[n]));
      ScanConcat(s, ['\t'], Escape(fields[n]));
      ScanOne(s, '\t');
      EndEscapedField(s, front[..n - 1], front[n - 1]);
      assert front[..n - 1] + [front[n - 1]] == front;
      ScanEscaped(Scan(front, "", false), fields[n]);
      assert "" + Escape(fields[n]) == Escape(fields[n]);
    }
  }

  lemma EndEscapedField(s: Scan, fields: Row, value: string)
    requires s == Scan(fields, Escape(value), false)
    ensures ScanChar(s, '\t') == EndField(s) == Scan(fields + [value], "", false)
  {
    UnescapeEscape(value);
  }

  lemma ParseFormatted(fields: Row)
    requires fields != []
    ensures ParseRow(JoinFields(fields)) == Ok(fields)
  {
    hide ScanAll, JoinFields, Escape;
    var n := |fields| - 1;
    ScanRow(fields);
    EndEscapedField(ScanAll(NEW_SCAN, JoinFields(fields)), fields[..n], fields[n]);
    assert fields[..n] + [fields[n]] == fields;
  }

  lemma RowIsOneLine(fields: Row)
    ensures forall i :: 0 <= i < |JoinFields(fields)| ==> JoinFields(fields)[i] !in {'\n', '\r'}
    ensures JoinFields(fields) == "" <==> Blank(fields)
  {
    hide Escape;
    if fields != [] {
      EscapeIsPlain(fields[|fields| - 1]);
      if |fields| > 1 { RowIsOneLine(fields[..|fields| - 1]); }
    }
  }

  lemma ParseFirstLine(line: string, rest: string)
    requires forall i :: 0 <= i < |line| ==> line[i] !in {'\n', '\r'}
    ensures var document := line + "\n" + rest;
            && document != "" && IndexOf(document, '\n', 0) == |line|
            && document[..|line|] == line && document[|line| + 1..] == rest && StripReturn(line) == line
  {
    var document := line + "\n" + rest;
    assert document[|line|] == '\n';
    assert forall i :: 0 <= i < |line| ==> document[i] == line[i];
  }

  /** Parsing row by row: what a first line contributes before the rest. */
  function WithLine(line: string, rest: Result<seq<Row>>): Result<seq<Row>> {
    if line == "" then rest
    else
      var row := ParseRow(line);
      if row.Failed? then Failed(row.error)
      else if rest.Failed? then rest
      else Ok([row.value] + rest.value)
  }

  lemma ParseLineByLine(document: string)
    requires document != ""
    ensures var newline := IndexOf(document, '\n', 0);
            Parse(document) ==
              if newline < 0 then WithLine(StripReturn(document), Ok([]))
              else WithLine(StripReturn(document[..newline]), Parse(document[newline + 1..]))
  {
    hide ParseRow, IndexOf, StripReturn;
  }

  /** A document of formatted rows parses to those rows, but for the ones written as blank lines. */
  lemma {:induction false} ParseFormat(rows: seq<Row>)
    ensures Parse(FormatRows(rows)) == Ok(NonBlank(rows))
  {
    hide JoinFields, ParseRow, IndexOf, StripReturn, Blank;
    if rows == [] {
    } else {
      hide Parse;
      var line, rest := JoinFields(rows[0]), FormatRows(rows[1..]);
      ParseFormat(rows[1..]);
      RowIsOneLine(rows[0]);
      ParseFirstLine(line, rest);
      assert FormatRows(rows) == line + "\n" + rest;
      ParseLineByLine(line + "\n" + rest);
      if Blank(rows[0]) { assert [] + NonBlank(rows[1..]) == NonBlank(rows[1..]); } else { FormattedRow(rows[0]); }
    }
  }

  lemma FormattedRow(fields: Row)
    requires !Blank(fields)
    ensures ParseRow(JoinFields(fields)) == Ok(fields)
  {
    ParseFormatted(fields);
  }

  lemma NonBlankShorter(rows: seq<Row>)
    ensures |NonBlank(rows)| <= |rows|
    ensures NonBlank(rows) == rows <==> forall i :: 0 <= i < |rows| ==> !Blank(rows[i])
  {
    if rows != [] {
      NonBlankShorter(rows[1..]);
      assert rows == [rows[0]] + rows[1..];
      if !Blank(rows[0]) {
        assert NonBlank(rows)[1..] == NonBlank(rows[1..]);
        if forall i :: 0 <= i < |rows[1..]| ==> !Blank(rows[1..][i]) {
          forall i | 0 <= i < |rows| ensures !Blank(rows[i]) { if i > 0 { assert rows[i] == rows[1..][i - 1]; } }
        }
      }
    }
  }

  /** A document round-trips if and only if no row is empty or a single empty field. */
  lemma {:induction false} RoundTrip(rows: seq<Row>)
    ensures Parse(FormatRows(rows)) == Ok(rows) <==> forall i :: 0 <= i < |rows| ==> !Blank(rows[i])
  {
    hide Parse, FormatRows, Blank;
    ParseFormat(rows);
    NonBlankShorter(rows);
  }

  // ---- The loops ----

  method EscapeTransportField(value: string) returns (escaped: string)
    ensures escaped == Escape(value)
  {
    escaped := "";
    var i := 0;
    while i < |value|
      invariant i <= |value| && escaped == Escape(value[..i])
    {
      assert value[..i + 1][..i] == value[..i];
      var c := value[i];
      if c == '\\' {
        escaped := escaped + "\\\\";
      } else if c == '\t' {
        escaped := escaped + "\\t";
      } else if c == '\n' {
        escaped := escaped + "\\n";
      } else if c == '\r' {
        escaped := escaped + "\\r";
      } else {
        escaped := escaped + [c];
      }
      i := i + 1;
    }
    assert value[..|value|] == value;
  }

  /** What the rest of a field adds to what has been read of it. */
  function UnescapeRest(output: string, pending: bool, rest: string): Option<string> {
    var all := Unescape(if pending then ['\\'] + rest else rest);
    if all.None? then None else Some(output + all.value)
  }

  lemma UnescapeRestStep(output: string, pending: bool, rest: string)
    requires rest != ""
    ensures UnescapeRest(output, pending, rest) ==
              if !pending then
                if rest[0] == '\\' then UnescapeRest(output, true, rest[1..])
                else UnescapeRest(output + [rest[0]], false, rest[1..])
              else if UnescapeChar(rest[0]).None? then None
              else UnescapeRest(output + [UnescapeChar(rest[0]).value], false, rest[1..])
  {
    hide UnescapeChar;
    if pending {
      assert (['\\'] + rest)[2..] == rest[1..];
      var tail := Unescape(rest[1..]);
      if tail.Some? && UnescapeChar(rest[0]).Some? {
        var c := UnescapeChar(rest[0]).value;
        assert output + ([c] + tail.value) == output + [c] + tail.value;
      }
    } else if rest[0] == '\\' {
      assert ['\\'] + rest[1..] == rest;
    } else {
      var tail := Unescape(rest[1..]);
      if tail.Some? { assert output + ([rest[0]] + tail.value) == output + [rest[0]] + tail.value; }
    }
  }

  method UnescapeTransportField(value: string) returns (ok: bool, output: string)
    ensures ok <==> Unescape(value).Some?
    ensures ok ==> output == Unescape(value).value
  {
    hide Unescape, UnescapeRest;
    output := "";
    var pending := false;
    var i := 0;
    UnescapeStart(value);
    while i < |value|
      invariant i <= |value| && UnescapeRest(output, pending, value[i..]) == Unescape(value)
    {
      var c := value[i];
      UnescapeRestStep(output, pending, value[i..]);
      assert value[i..][1..] == value[i + 1..];
      if !pending {
        if c == '\\' { pending := true; } else { output := output + [c]; }
      } else {
        var plain := UnescapeChar(c);
        if plain.None? { return false, output; }
        output := output + [plain.value];
        pending := false;
      }
      i := i + 1;
    }
    UnescapeEnd(output, pending, value[i..]);
    ok := !pending;
  }

  lemma UnescapeStart(value: string)
    ensures UnescapeRest("", false, value[0..]) == Unescape(value)
  {
    assert value[0..] == value;
    var all := Unescape(value);
    if all.Some? { assert "" + all.value == all.value; }
  }

  lemma UnescapeEnd(output: string, pending: bool, rest: string)
    requires rest == ""
    ensures UnescapeRest(output, pending, rest) == if pending then None else Some(output)
  {
    assert ['\\'] + rest == "\\";
    assert output + "" == output;
  }

  method ParseLine(line: string) returns (row: Result<Row>)
    ensures row == ParseRow(line)
  {
    hide ScanChar, EndField, Unescape;
    var fields, current, pending := [], "", false;
    var i := 0;
    assert line[0..] == line;
    while i < |line|
      invariant i <= |line| && ScanAll(Scan(fields, current, pending), line[i..]) == ScanAll(NEW_SCAN, line)
    {
      ghost var s := Scan(fields, current, pending);
      assert line[i..][1..] == line[i + 1..];
      assert ScanAll(s, line[i..]) == ScanAll(ScanChar(s, line[i]), line[i + 1..]);
      ScanCharIs(s, line[i]);
      if pending {
        current := current + "\\" + [line[i]];
        pending := false;
      } else if line[i] == '\\' {
        pending := true;
      } else if line[i] == '\t' {
        var ok, field := UnescapeTransportField(current);
        if !ok { return Failed(BadField); }
        fields := fields + [field];
        current := "";
      } else {
        current := current + [line[i]];
      }
      i := i + 1;
    }
    if pending { return Failed(DanglingEscape); }
    EndFieldIs(Scan(fields, current, pending));
    var ok, field := UnescapeTransportField(current);
    if !ok { return Failed(BadField); }
    row := Ok(fields + [field]);
  }

  lemma EndFieldIs(s: Scan)
    requires s.Scan?
    ensures EndField(s) ==
              if Unescape(s.current).None? then BadScan else Scan(s.fields + [Unescape(s.current).value], "", false)
  {
  }

  lemma ScanCharIs(s: Scan, c: char)
    requires s.Scan?
    ensures ScanChar(s, c) ==
              if s.pending then Scan(s.fields, s.current + "\\" + [c], false)
              else if c == '\\' then s.(pending := true)
              else if c == '\t' then
                if Unescape(s.current).None? then BadScan else Scan(s.fields + [Unescape(s.current).value], "", false)
              else s.(current := s.current + [c])
  {
  }

  /** The rows read so far, followed by those of the rest. */
  function ParsesOn(rows: seq<Row>, rest: string): Result<seq<Row>> {
    var more := Parse(rest);
    if more.Failed? then more else Ok(rows + more.value)
  }

  lemma ParsesOnNext(rows: seq<Row>, rest: string, line: string, next: string)
    requires Parse(rest) == WithLine(line, Parse(next))
    ensures line == "" ==> ParsesOn(rows, rest) == ParsesOn(rows, next)
    ensures line != "" && ParseRow(line).Failed? ==> ParsesOn(rows, rest) == Failed(ParseRow(line).error)
    ensures line != "" && ParseRow(line).Ok? ==> ParsesOn(rows, rest) == ParsesOn(rows + [ParseRow(line).value], next)
  {
    hide Parse, ParseRow;
    if line != "" && ParseRow(line).Ok? && Parse(next).Ok? {
      var row := ParseRow(line).value;
      assert rows + ([row] + Parse(next).value) == rows + [row] + Parse(next).value;
    }
  }

  lemma ParsesNothing(rows: seq<Row>, rest: string)
    requires rest == ""
    ensures ParsesOn(rows, rest) == Ok(rows)
    ensures Parse(rest) == Ok([])
  {
    assert rows + [] == rows;
  }

  lemma ParsesAll(rows: seq<Row>, document: string)
    requires rows == []
    ensures ParsesOn(rows, document) == Parse(document)
  {
    hide Parse;
    if Parse(document).Ok? { assert [] + Parse(document).value == Parse(document).value; }
  }

  method ParseTransportDocument(document: string) returns (result: Result<seq<Row>>)
    ensures result == Parse(document)
  {
    hide ParseRow, IndexOf, Parse, ParsesOn, WithLine;
    var rows: seq<Row> := [];
    var rest := document;
    ParsesAll(rows, document);
    while rest != ""
      invariant ParsesOn(rows, rest) == Parse(document)
      decreases |rest|
    {
      var newline := IndexOf(rest, '\n', 0);
      var line := if newline < 0 then rest else rest[..newline];
      var next := if newline < 0 then "" else rest[newline + 1..];
      if line != "" && line[|line| - 1] == '\r' { line := line[..|line| - 1]; }
      ParseLineByLine(rest);
      ParsesNothing(rows, "");
      ParsesOnNext(rows, rest, line, next);
      rest := next;
      if line == "" { continue; }
      var row := ParseLine(line);
      if row.Failed? { return Failed(row.error); }
      rows := rows + [row.value];
    }
    ParsesNothing(rows, rest);
    result := Ok(rows);
  }

  method FormatSignalEventLine(fields: Row) returns (line: string)
    ensures line == FormatRow(fields)
  {
    line := "";
    var i := 0;
    while i < |fields|
      invariant i <= |fields| && line == JoinFields(fields[..i])
    {
      assert fields[..i + 1][..i] == fields[..i];
      if i > 0 { line := line + "\t"; }
      var escaped := EscapeTransportField(fields[i]);
      line := line + escaped;
      i := i + 1;
    }
    assert fields[..|fields|] == fields;
    line := line + "\n";
  }
}
