/** What any document means to the reader, however it was written: lines, fields and escapes. */
module TransportParsing {
  import opened Basics
  import opened TransportDocument

  // ---- Texts in pieces ----

  /** The pieces of a text between the occurrences of a character. */
  function Pieces(text: string, c: char): (pieces: seq<string>)
    ensures pieces != []
  {
    if text == "" then [""]
    else
      var rest := Pieces(text[1..], c);
      if text[0] == c then [""] + rest else [[text[0]] + rest[0]] + rest[1..]
  }

  lemma PiecesOn(u: char, rest: string, c: char)
    ensures Pieces([u] + rest, c) == if u == c then [""] + Pieces(rest, c)
                                     else [[u] + Pieces(rest, c)[0]] + Pieces(rest, c)[1..]
  {
    assert ([u] + rest)[1..] == rest;
  }

  lemma {:induction false} PiecesFirst(first: string, rest: string, c: char)
    requires c !in first
    ensures Pieces(first, c) == [first] && Pieces(first + [c] + rest, c) == [first] + Pieces(rest, c)
  {
    hide Pieces;
    if first == "" {
      NoPieces(first, c);
      assert first + [c] + rest == [c] + rest;
      PiecesOn(c, rest, c);
    } else {
      PiecesFirst(first[1..], rest, c);
      PiecesOn(first[0], first[1..], c);
      PiecesOn(first[0], first[1..] + [c] + rest, c);
      assert [first[0]] + first[1..] == first;
      assert [first[0]] + (first[1..] + [c] + rest) == first + [c] + rest;
      assert ([first[1..]] + Pieces(rest, c))[1..] == Pieces(rest, c);
    }
  }

  lemma NoPieces(text: string, c: char)
    requires text == ""
    ensures Pieces(text, c) == [""]
  {
  }

  // ---- Escapes ----

  /** Read from the left, every backslash is followed by one of four letters. */
  predicate WellEscaped(text: string)
    decreases |text|
  {
    || text == ""
    || (text[0] != '\\' && WellEscaped(text[1..]))
    || (|text| >= 2 && text[0] == '\\' && text[1] in {'n', 'r', 't', '\\'} && WellEscaped(text[2..]))
  }

  /** A text is accepted as a field if and only if it is well escaped. */
  lemma {:induction false} AcceptedIfWellEscaped(text: string)
    ensures Unescape(text).Some? <==> WellEscaped(text)
    decreases |text|
  {
    if text != "" {
      if text[0] != '\\' { AcceptedIfWellEscaped(text[1..]); }
      else if |text| >= 2 { AcceptedIfWellEscaped(text[2..]); }
    }
  }

  predicate Raw(c: char) { c == '\t' || c == '\n' || c == '\r' }

  /** Escaping gives an accepted field back if and only if it held no tab, newline or carriage return as
      such. */
  lemma {:induction false} EscapeUnescape(text: string)
    requires Unescape(text).Some?
    ensures Escape(Unescape(text).value) == text <==> forall i :: 0 <= i < |text| ==> !Raw(text[i])
    decreases |text|
  {
    hide Escape, EscapeChar, UnescapeChar;
    if text == "" {
      EscapeNothing(text);
    } else {
      var value := Unescape(text).value;
      var taken := if text[0] == '\\' then 2 else 1;
      EscapeUnescape(text[taken..]);
      EscapeFront(value);
      assert value[1..] == Unescape(text[taken..]).value;
      OneEscape(text[0], if taken == 2 then text[1] else text[0]);
      assert text == text[..taken] + text[taken..];
      SameEnd(EscapeChar(value[0]), Escape(value[1..]), text[..taken], text[taken..]);
      RawEither(text, taken);
    }
  }

  lemma OneEscape(c: char, d: char)
    ensures c != '\\' ==> (EscapeChar(c) == [c] <==> !Raw(c)) && (Raw(c) ==> |EscapeChar(c)| == 2 && EscapeChar(c)[0] == '\\')
    ensures UnescapeChar(d).Some? ==> EscapeChar(UnescapeChar(d).value) == ['\\', d] && !Raw(d) && !Raw('\\')
  {
  }

  lemma RawEither(text: string, n: nat)
    requires n <= |text|
    ensures (forall i :: 0 <= i < |text| ==> !Raw(text[i])) <==>
              (forall i :: 0 <= i < n ==> !Raw(text[i])) && forall i :: 0 <= i < |text[n..]| ==> !Raw(text[n..][i])
  {
    hide Raw;
    if (forall i :: 0 <= i < n ==> !Raw(text[i])) && forall i :: 0 <= i < |text[n..]| ==> !Raw(text[n..][i]) {
      forall i | 0 <= i < |text| ensures !Raw(text[i]) { if i >= n { assert text[i] == text[n..][i - n]; } }
    }
    if forall i :: 0 <= i < |text| ==> !Raw(text[i]) {
      forall i | 0 <= i < |text[n..]| ensures !Raw(text[n..][i]) { assert text[n..][i] == text[n + i]; }
    }
  }

  /** Texts that begin with different parts, or with the same one, as far as the first character tells. */
  lemma SameEnd(a: string, b: string, c: string, d: string)
    ensures a == c ==> (a + b == c + d <==> b == d)
    ensures a != "" && c != "" && a[0] != c[0] ==> a + b != c + d
  {
    if a == c && a + b == c + d { assert b == (a + b)[|a|..] && d == (c + d)[|c|..]; }
    if a != "" && c != "" && a + b == c + d { assert (a + b)[0] == a[0] && (c + d)[0] == c[0]; }
  }

  // ---- Fields of a line ----

  function Value(text: string): string { if WellEscaped(text) && Unescape(text).Some? then Unescape(text).value else "" }

  function Values(texts: seq<string>): (values: Row)
    ensures |values| == |texts|
  {
    if texts == [] then [] else [Value(texts[0])] + Values(texts[1..])
  }

  predicate AllWellEscaped(texts: seq<string>) { forall i :: 0 <= i < |texts| ==> WellEscaped(texts[i]) }

  /** A text at whose end the reader waits for nothing. */
  predicate Settled(text: string)
    decreases |text|
  {
    || text == ""
    || (text[0] != '\\' && Settled(text[1..]))
    || (|text| >= 2 && text[0] == '\\' && Settled(text[2..]))
  }

  lemma {:induction false} SettledGoesOn(text: string, more: string)
    requires Settled(text) && (more == "" || (|more| == 1 && more[0] != '\\') || (|more| == 2 && more[0] == '\\'))
    ensures Settled(text + more)
    decreases |text|
  {
    var all := text + more;
    if text == "" {
      assert all == more;
      if |more| == 2 { assert more[2..] == ""; } else if |more| == 1 { assert more[1..] == ""; }
    } else if text[0] != '\\' {
      assert all[1..] == text[1..] + more;
      SettledGoesOn(text[1..], more);
    } else {
      assert all[2..] == text[2..] + more;
      SettledGoesOn(text[2..], more);
    }
  }

  lemma {:induction false} WellEscapedParts(a: string, b: string)
    requires Settled(a)
    ensures WellEscaped(a + b) <==> WellEscaped(a) && WellEscaped(b)
    decreases |a|
  {
    var all := a + b;
    if a == "" {
      assert all == b;
    } else if a[0] != '\\' {
      assert all[1..] == a[1..] + b;
      WellEscapedParts(a[1..], b);
    } else {
      assert all[2..] == a[2..] + b;
      WellEscapedParts(a[2..], b);
    }
  }

  lemma LoneBackslash(text: string)
    requires text == "\\"
    ensures !WellEscaped(text)
  {
  }

  /** The fields read so far and a settled beginning of the current one, with the rest of the line to come. */
  ghost predicate ReadsOn(fields: Row, current: string, rest: string, r: Result<Row>) {
    var pieces := Pieces(rest, '\t');
    var first := current + pieces[0];
    && (r.Ok? <==> WellEscaped(first) && AllWellEscaped(pieces[1..]))
    && (r.Ok? ==> r.value == fields + [Value(first)] + Values(pieces[1..]))
  }

  lemma FieldEnds(fields: Row, current: string)
    ensures var e := EndField(Scan(fields, current, false));
            if WellEscaped(current) then e == Scan(fields + [Value(current)], "", false) else e == BadScan
  {
    AcceptedIfWellEscaped(current);
  }

  lemma {:induction false} ScanReads(fields: Row, current: string, rest: string)
    requires Settled(current)
    ensures ReadsOn(fields, current, rest, EndRow(ScanAll(Scan(fields, current, false), rest)))
    decreases |rest|
  {
    hide WellEscaped, Settled, Pieces, ReadsOn, EndField, Value, Values;
    var s := Scan(fields, current, false);
    if rest == "" {
      LastField(fields, current, rest);
    } else if rest[0] == '\t' {
      FieldEnds(fields, current);
      assert rest == [rest[0]] + rest[1..];
      assert ScanAll(s, rest) == ScanAll(EndField(s), rest[1..]);
      if WellEscaped(current) {
        NothingIsSettled("");
        ScanReads(fields + [Value(current)], "", rest[1..]);
        ReadsTab(fields, current, rest, EndRow(ScanAll(s, rest)));
      } else {
        ReadsBadField(fields, current, rest, EndRow(ScanAll(s, rest)));
      }
    } else if rest[0] != '\\' {
      SettledGoesOn(current, rest[..1]);
      assert rest[..1] == [rest[0]];
      ScanReads(fields, current + rest[..1], rest[1..]);
      assert ScanAll(s, rest) == ScanAll(Scan(fields, current + rest[..1], false), rest[1..]);
      ReadsPart(fields, current, rest, 1, EndRow(ScanAll(s, rest)));
    } else {
      ReadsEscape(fields, current, rest);
    }
  }

  lemma NothingIsSettled(text: string)
    requires text == ""
    ensures Settled(text)
  {
  }

  lemma LastField(fields: Row, current: string, rest: string)
    requires rest == ""
    ensures ReadsOn(fields, current, rest, EndRow(ScanAll(Scan(fields, current, false), rest)))
  {
    hide WellEscaped, Value;
    NoPieces(rest, '\t');
    assert Pieces(rest, '\t')[1..] == [] && current + "" == current;
    assert fields + [Value(current)] + [] == fields + [Value(current)];
    FieldEnds(fields, current);
  }

  lemma ReadsTab(fields: Row, current: string, rest: string, r: Result<Row>)
    requires rest != "" && rest[0] == '\t' && WellEscaped(current)
    requires ReadsOn(fields + [Value(current)], "", rest[1..], r)
    ensures ReadsOn(fields, current, rest, r)
  {
    hide WellEscaped, Pieces, Value;
    var later := Pieces(rest[1..], '\t');
    PiecesOn(rest[0], rest[1..], '\t');
    assert rest == [rest[0]] + rest[1..];
    assert Pieces(rest, '\t')[1..] == later && current + "" == current && "" + later[0] == later[0];
    assert AllWellEscaped(later) <==> WellEscaped(later[0]) && AllWellEscaped(later[1..]) by { AllFront(later); }
    assert Values(later) == [Value(later[0])] + Values(later[1..]);
    assert fields + [Value(current)] + [Value(later[0])] + Values(later[1..])
           == fields + [Value(current)] + ([Value(later[0])] + Values(later[1..]));
  }

  lemma AllFront(texts: seq<string>)
    requires texts != []
    ensures AllWellEscaped(texts) <==> WellEscaped(texts[0]) && AllWellEscaped(texts[1..])
  {
    hide WellEscaped;
    if WellEscaped(texts[0]) && AllWellEscaped(texts[1..]) {
      forall i | 0 <= i < |texts| ensures WellEscaped(texts[i]) { if i > 0 { assert texts[i] == texts[1..][i - 1]; } }
    }
  }

  lemma ReadsBadField(fields: Row, current: string, rest: string, r: Result<Row>)
    requires rest != "" && rest[0] == '\t' && !WellEscaped(current) && r.Failed?
    ensures ReadsOn(fields, current, rest, r)
  {
    hide WellEscaped, Pieces;
    PiecesOn(rest[0], rest[1..], '\t');
    assert rest == [rest[0]] + rest[1..] && current + "" == current;
  }

  /** Reading `n` characters, none of them a tab. */
  lemma ReadsPart(fields: Row, current: string, rest: string, n: nat, r: Result<Row>)
    requires 1 <= n <= 2 && n <= |rest| && forall i :: 0 <= i < n ==> rest[i] != '\t'
    requires ReadsOn(fields, current + rest[..n], rest[n..], r)
    ensures ReadsOn(fields, current, rest, r)
  {
    hide WellEscaped, Pieces, Value;
    var later := Pieces(rest[n..], '\t');
    if n == 1 {
      assert rest == [rest[0]] + rest[1..];
      PiecesOn(rest[0], rest[1..], '\t');
    } else {
      assert rest == [rest[0]] + rest[1..] && rest[1..] == [rest[1]] + rest[2..];
      PiecesOn(rest[0], rest[1..], '\t');
      PiecesOn(rest[1], rest[2..], '\t');
    }
    assert Pieces(rest, '\t')[1..] == later[1..] && Pieces(rest, '\t')[0] == rest[..n] + later[0];
    assert current + rest[..n] + later[0] == current + (rest[..n] + later[0]);
  }

  lemma {:induction false} ReadsEscape(fields: Row, current: string, rest: string)
    requires Settled(current) && rest != "" && rest[0] == '\\'
    ensures ReadsOn(fields, current, rest, EndRow(ScanAll(Scan(fields, current, false), rest)))
    decreases |rest|, 0
  {
    hide WellEscaped, Settled, Pieces, ReadsOn, Value, Values;
    var s := Scan(fields, current, false);
    var r := EndRow(ScanAll(s, rest));
    if |rest| == 1 {
      assert rest == "\\" && rest[1..] == "";
      assert ScanAll(s, rest) == ScanAll(Scan(fields, current, true), "");
      ReadsDangling(fields, current, rest, r);
    } else {
      var more := rest[..2];
      assert more == "\\" + [rest[1]] && rest[1..][0] == rest[1] && rest[1..][1..] == rest[2..];
      assert ScanAll(s, rest) == ScanAll(Scan(fields, current, true), rest[1..]);
      assert current + "\\" + [rest[1]] == current + more;
      assert ScanAll(Scan(fields, current, true), rest[1..]) == ScanAll(Scan(fields, current + more, false), rest[2..]);
      SettledGoesOn(current, more);
      ScanReads(fields, current + more, rest[2..]);
      if rest[1] != '\t' {
        ReadsPart(fields, current, rest, 2, r);
      } else {
        ReadsEscapedTab(fields, current, rest, r);
      }
    }
  }

  lemma ReadsDangling(fields: Row, current: string, rest: string, r: Result<Row>)
    requires Settled(current) && rest == "\\" && r.Failed?
    ensures ReadsOn(fields, current, rest, r)
  {
    hide WellEscaped, Settled;
    PiecesFirst(rest, "", '\t');
    WellEscapedParts(current, rest);
    LoneBackslash(rest);
  }

  /** A backslash before a tab spoils the field on either reading of the tab. */
  lemma ReadsEscapedTab(fields: Row, current: string, rest: string, r: Result<Row>)
    requires Settled(current) && |rest| >= 2 && rest[..2] == "\\\t"
    requires ReadsOn(fields, current + rest[..2], rest[2..], r)
    ensures ReadsOn(fields, current, rest, r)
  {
    hide WellEscaped, Settled, Pieces;
    var later := Pieces(rest[2..], '\t');
    PiecesFirst("\\", rest[2..], '\t');
    assert rest == "\\" + ['\t'] + rest[2..];
    WellEscapedParts(current, "\\");
    LoneBackslash("\\");
    WellEscapedParts(current, "\\\t" + later[0]);
    EscapedTab(later[0]);
    assert current + "\\\t" + later[0] == current + ("\\\t" + later[0]);
  }

  lemma EscapedTab(more: string)
    ensures !WellEscaped("\\\t" + more)
  {
    assert ("\\\t" + more)[1] == '\t';
  }

  /** A line reads as a row if and only if each of its tab-separated pieces is well escaped; the fields
      are what the pieces stand for, in order. */
  lemma {:induction false} LineReads(line: string)
    ensures var pieces := Pieces(line, '\t');
            && (ParseRow(line).Ok? <==> AllWellEscaped(pieces))
            && (ParseRow(line).Ok? ==> ParseRow(line).value == Values(pieces))
  {
    hide WellEscaped, Settled, Pieces, Value;
    var pieces := Pieces(line, '\t');
    NothingIsSettled("");
    ScanReads([], "", line);
    AllFront(pieces);
    assert "" + pieces[0] == pieces[0] && [] + [Value(pieces[0])] + Values(pieces[1..]) == Values(pieces);
  }

  // ---- Lines of a document ----

  function WithoutReturn(line: string): string {
    if line != "" && line[|line| - 1] == '\r' then line[..|line| - 1] else line
  }

  /** The lines that count: without one carriage return at the end, and not empty. */
  function Counting(lines: seq<string>): seq<string> {
    if lines == [] then []
    else (if WithoutReturn(lines[0]) == "" then [] else [WithoutReturn(lines[0])]) + Counting(lines[1..])
  }

  ghost predicate AllRead(lines: seq<string>, rows: Result<seq<Row>>) {
    && (rows.Ok? <==> forall i :: 0 <= i < |lines| ==> AllWellEscaped(Pieces(lines[i], '\t')))
    && (rows.Ok? ==> |rows.value| == |lines| && forall i :: 0 <= i < |lines| ==> rows.value[i] == Values(Pieces(lines[i], '\t')))
  }

  lemma ReadsLine(line: string, lines: seq<string>, rest: Result<seq<Row>>)
    requires AllRead(lines, rest) && line != ""
    ensures AllRead([line] + lines, WithLine(line, rest))
  {
    hide AllWellEscaped, Pieces, Values, ParseRow;
    LineReads(line);
    var all := [line] + lines;
    assert all[0] == line;
    forall i | 0 <= i < |lines| ensures all[i + 1] == lines[i] {}
    if rest.Ok? && ParseRow(line).Ok? {
      forall i | 0 <= i < |all| ensures AllWellEscaped(Pieces(all[i], '\t')) { if i > 0 { assert all[i] == lines[i - 1]; } }
    }
  }

  /** Any document parses if and only if every line of it that counts reads as a row, and then to those
      rows in order; lines may end in a newline or in a carriage return and a newline. */
  lemma {:induction false} DocumentReads(document: string)
    ensures AllRead(Counting(Pieces(document, '\n')), Parse(document))
    decreases |document|
  {
    hide AllRead, Pieces, Parse, ParseRow, IndexOf, StripReturn, WithoutReturn, WithLine;
    if document == "" {
      NoPieces(document, '\n');
      EmptyReads(document);
    } else {
      var newline := IndexOf(document, '\n', 0);
      ParseLineByLine(document);
      if newline < 0 {
        PiecesFirst(document, "", '\n');
        CountingFront(document, []);
        NothingReads();
        OneLineReads(document, [], Ok([]));
      } else {
        var first, rest := document[..newline], document[newline + 1..];
        assert document == first + ['\n'] + rest;
        PiecesFirst(first, rest, '\n');
        CountingFront(first, Pieces(rest, '\n'));
        DocumentReads(rest);
        OneLineReads(first, Counting(Pieces(rest, '\n')), Parse(rest));
      }
    }
  }

  lemma EmptyReads(document: string)
    requires document == ""
    ensures AllRead(Counting([""]), Parse(document))
  {
    assert [""][1..] == [] && Counting([""]) == [];
  }

  lemma NothingReads()
    ensures AllRead([], Ok([]))
  {
  }

  lemma CountingFront(first: string, lines: seq<string>)
    ensures Counting([first] + lines) ==
              (if WithoutReturn(first) == "" then [] else [WithoutReturn(first)]) + Counting(lines)
    ensures StripReturn(first) == WithoutReturn(first)
  {
    assert ([first] + lines)[1..] == lines;
  }

  lemma OneLineReads(first: string, lines: seq<string>, rest: Result<seq<Row>>)
    requires AllRead(lines, rest)
    ensures AllRead((if WithoutReturn(first) == "" then [] else [WithoutReturn(first)]) + lines, WithLine(StripReturn(first), rest))
  {
    hide AllRead, ParseRow;
    if WithoutReturn(first) == "" { assert [] + lines == lines; } else { ReadsLine(WithoutReturn(first), lines, rest); }
  }
}
