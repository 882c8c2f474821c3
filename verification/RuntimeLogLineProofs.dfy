/** What the log buffer stores of a text: its lines, each cut down as a whole, with either line ending. */
module RuntimeLogLineProofs {
  import opened Basics
  import opened RuntimeLogModel
  import opened BufferProofs = RuntimeLogBufferProofs

  // ---- The lines of a text, character by character ----

  /** The lines between the newlines, units 10. */
  function Split(text: Line): (lines: seq<Line>)
    ensures lines != []
  {
    if text == [] then [[]]
    else
      var rest := Split(text[1..]);
      if text[0] == 10 then [[]] + rest else [[text[0]] + rest[0]] + rest[1..]
  }

  lemma {:induction false} SplitFirst(first: Line, rest: Line)
    requires NEWLINE !in first
    ensures Split(first) == [first]
    ensures Split(first + [NEWLINE] + rest) == [first] + Split(rest)
  {
    var all := first + [NEWLINE] + rest;
    if first == [] {
      assert all == [NEWLINE] + rest && all[1..] == rest;
    } else {
      SplitFirst(first[1..], rest);
      assert all[1..] == first[1..] + [NEWLINE] + rest;
      assert [first[0]] + first[1..] == first;
      assert ([first[1..]] + Split(rest))[1..] == Split(rest);
    }
  }

  // ---- What is stored of one line ----

  const LINE_LIMIT: nat := 2097151   // units in half of 4 MiB, less one for the line's end

  /** The longest end of a line within the limit. */
  function TailWithin(line: Line): Line { if |line| <= LINE_LIMIT then line else TailWithin(line[1..]) }

  /** A line that starts in the middle of a surrogate pair loses the half of it. */
  function WithoutHalfPair(line: Line): Line { if line != [] && 0xDC00 <= line[0] <= 0xDFFF then line[1..] else line }

  /** Whether the last unit is a carriage return, 13. */
  predicate EndsInReturn(line: Line) { line != [] && line[|line| - 1] == 13 }

  function WithoutReturn(line: Line): Line { if EndsInReturn(line) then line[..|line| - 1] else line }

  function Stored(line: Line): Line { WithoutReturn(WithoutHalfPair(TailWithin(line))) }

  function AllStored(lines: seq<Line>): (r: seq<Line>)
    ensures |r| == |lines| && forall i :: 0 <= i < |lines| ==> r[i] == Stored(lines[i])
  {
    if lines == [] then [] else [Stored(lines[0])] + AllStored(lines[1..])
  }

  lemma {:induction false} TailIsEnd(line: Line)
    ensures TailWithin(line) == if |line| <= LINE_LIMIT then line else line[|line| - LINE_LIMIT..]
    decreases |line|
  {
    if |line| > LINE_LIMIT {
      TailIsEnd(line[1..]);
      if |line| > LINE_LIMIT + 1 { assert line[1..][|line| - 1 - LINE_LIMIT..] == line[|line| - LINE_LIMIT..]; }
    }
  }

  lemma {:induction false} StoredLineIs(text: Line, begin: nat, end: nat)
    requires begin <= end <= |text|
    ensures StoredLine(text, begin, end) == Stored(text[begin..end])
  {
    hide TailWithin, StoredLine, Stored, WithoutHalfPair, EndsInReturn;
    TailIsEnd(text[begin..end]);
    var start := if end - begin <= LINE_LIMIT then begin else end - LINE_LIMIT;
    assert TailWithin(text[begin..end]) == text[start..end];
    StoredTail(text, begin, end, start);
    StoredIs(text[begin..end], text[start..end]);
  }

  lemma StoredIs(line: Line, tail: Line)
    requires TailWithin(line) == tail
    ensures Stored(line) == WithoutReturn(WithoutHalfPair(tail))
  {
  }

  lemma StoredTail(text: Line, begin: nat, end: nat, start: nat)
    requires begin <= end <= |text| && start == if end - begin <= LINE_LIMIT then begin else end - LINE_LIMIT
    ensures StoredLine(text, begin, end) == WithoutReturn(WithoutHalfPair(text[start..end]))
  {
    hide WithoutReturn, WithoutHalfPair;
    var from := if start < end && IsLowSurrogate(text[start]) then start + 1 else start;
    HalfPairIs(text, start, end);
    StoredFrom(text, begin, end, from);
  }

  lemma HalfPairIs(text: Line, start: nat, end: nat)
    requires start <= end <= |text|
    ensures WithoutHalfPair(text[start..end]) == text[if start < end && IsLowSurrogate(text[start]) then start + 1 else start..end]
  {
    if start < end { assert text[start..end][1..] == text[start + 1..end]; }
  }

  lemma StoredFrom(text: Line, begin: nat, end: nat, from: nat)
    requires begin <= end <= |text|
    requires var start := if end - begin <= LINE_LIMIT then begin else end - LINE_LIMIT;
             from == if start < end && IsLowSurrogate(text[start]) then start + 1 else start
    ensures from <= end && StoredLine(text, begin, end) == WithoutReturn(text[from..end])
  {
    hide IsLowSurrogate;
    var start := if end - begin <= LINE_LIMIT then begin else end - LINE_LIMIT;
    StartIs(begin, end);
    assert from <= end && start == Max(begin, end - (MAX_BYTES / 2 - 1));
  }

  lemma StartIs(begin: nat, end: nat)
    requires begin <= end
    ensures Max(begin, end - (MAX_BYTES / 2 - 1)) == if end - begin <= LINE_LIMIT then begin else end - LINE_LIMIT
  {
  }

  lemma LinesOn(text: Line, begin: nat)
    requires begin <= |text|
    ensures var newline := IndexOfNewline(text, begin);
            LinesFrom(text, begin) == if newline < 0 then [StoredLine(text, begin, |text|)]
                                      else [StoredLine(text, begin, newline)] + LinesFrom(text, newline + 1)
  {
    hide StoredLine, IndexOfNewline;
  }

  lemma SplitOn(text: Line, begin: nat)
    requires begin <= |text|
    ensures var newline := IndexOfNewline(text, begin);
            Split(text[begin..]) == if newline < 0 then [text[begin..]]
                                    else [text[begin..newline]] + Split(text[newline + 1..])
  {
    hide IndexOfNewline, Split;
    var newline := IndexOfNewline(text, begin);
    if newline < 0 {
      SplitFirst(text[begin..], []);
    } else {
      SplitAt(text, begin, newline);
      SplitFirst(text[begin..newline], text[newline + 1..]);
    }
  }

  lemma AllStoredFront(line: Line, rest: seq<Line>)
    ensures AllStored([line] + rest) == [Stored(line)] + AllStored(rest)
    ensures AllStored([line]) == [Stored(line)]
  {
    hide Stored;
    assert [line][1..] == [];
    assert ([line] + rest)[1..] == rest;
  }

  /** A text is stored as its lines in order, each cut to the longest end within the limit, less half a
      surrogate pair in front and less one carriage return at the end. */
  lemma {:induction false} LinesAreStored(text: Line, begin: nat)
    requires begin <= |text|
    ensures LinesFrom(text, begin) == AllStored(Split(text[begin..]))
    decreases |text| - begin
  {
    hide StoredLine, Stored, IndexOfNewline, Split, LinesFrom, AllStored;
    LinesOn(text, begin);
    SplitOn(text, begin);
    var newline := IndexOfNewline(text, begin);
    if newline < 0 {
      assert text[begin..|text|] == text[begin..];
      StoredLineIs(text, begin, |text|);
      AllStoredFront(text[begin..], []);
    } else {
      StoredLineIs(text, begin, newline);
      LinesAreStored(text, newline + 1);
      AllStoredFront(text[begin..newline], Split(text[newline + 1..]));
    }
  }

  /** A line that fits and starts with no half of a pair is stored whole, without one carriage return at
      its end. */
  lemma ShortLineStored(line: Line)
    requires |line| <= LINE_LIMIT && (line != [] ==> !(0xDC00 <= line[0] <= 0xDFFF))
    ensures Stored(line) == WithoutReturn(line)
  {
    hide TailWithin, WithoutReturn;
    TailIsEnd(line);
  }

  // ---- Either line ending ----

  function ToCrlf(text: Line): Line {
    if text == [] then []
    else (if text[0] == NEWLINE then [CARRIAGE_RETURN, NEWLINE] else [text[0]]) + ToCrlf(text[1..])
  }

  /** A carriage return after every line but the last. */
  function WithReturns(lines: seq<Line>): (r: seq<Line>)
    requires lines != []
    ensures |r| == |lines| && r[|r| - 1] == lines[|lines| - 1]
    ensures forall i :: 0 <= i < |lines| - 1 ==> r[i] == lines[i] + [CARRIAGE_RETURN]
  {
    if |lines| == 1 then lines else [lines[0] + [CARRIAGE_RETURN]] + WithReturns(lines[1..])
  }

  lemma SplitNewline(rest: Line)
    ensures Split([NEWLINE] + rest) == [[]] + Split(rest)
  {
    assert ([NEWLINE] + rest)[1..] == rest;
  }

  lemma SplitUnit(u: Unit, rest: Line)
    requires u != NEWLINE
    ensures Split([u] + rest) == [[u] + Split(rest)[0]] + Split(rest)[1..]
  {
    assert ([u] + rest)[1..] == rest;
  }

  lemma ReturnsMore(first: Line, lines: seq<Line>)
    requires lines != []
    ensures WithReturns([first] + lines) == [first + [CARRIAGE_RETURN]] + WithReturns(lines)
  {
    assert ([first] + lines)[1..] == lines;
  }

  lemma ReturnsFirst(u: Unit, lines: seq<Line>)
    requires lines != []
    ensures WithReturns([[u] + lines[0]] + lines[1..]) == [[u] + WithReturns(lines)[0]] + WithReturns(lines)[1..]
  {
    hide WithReturns;
    var more := [[u] + lines[0]] + lines[1..];
    assert [u] + (lines[0] + [CARRIAGE_RETURN]) == [u] + lines[0] + [CARRIAGE_RETURN];
  }

  lemma {:induction false} CrlfSplits(text: Line)
    ensures Split(ToCrlf(text)) == WithReturns(Split(text))
  {
    hide Split, WithReturns;
    if text == [] {
      SplitNothing(text);
    } else {
      var u, rest := text[0], ToCrlf(text[1..]);
      var lines := Split(text[1..]);
      CrlfSplits(text[1..]);
      assert text == [u] + text[1..];
      if u == NEWLINE {
        assert ToCrlf(text) == [CARRIAGE_RETURN] + ([NEWLINE] + rest);
        SplitNewline(rest);
        SplitUnit(CARRIAGE_RETURN, [NEWLINE] + rest);
        SplitNewline(text[1..]);
        var empty: Line := [];
        ReturnsMore(empty, lines);
        assert ([empty] + Split(rest))[1..] == Split(rest);
        assert [CARRIAGE_RETURN] + empty == empty + [CARRIAGE_RETURN];
      } else {
        SplitUnit(u, rest);
        SplitUnit(u, text[1..]);
        ReturnsFirst(u, lines);
      }
    }
  }

  lemma SplitNothing(text: Line)
    requires text == []
    ensures Split(ToCrlf(text)) == WithReturns(Split(text))
  {
  }

  lemma ReturnIsDropped(line: Line)
    requires |line| < LINE_LIMIT
    ensures Stored(line + [CARRIAGE_RETURN]) == Stored(line) <==> !EndsInReturn(line)
  {
    hide TailWithin;
    var with := line + [CARRIAGE_RETURN];
    TailIsEnd(line);
    TailIsEnd(with);
    if line != [] && IsLowSurrogate(line[0]) { assert with[1..] == line[1..] + [CARRIAGE_RETURN]; }
    var whole := WithoutHalfPair(line);
    assert WithoutHalfPair(with) == whole + [CARRIAGE_RETURN];
    assert (whole + [CARRIAGE_RETURN])[..|whole|] == whole;
  }

  /** A text with either line ending is stored as the same lines if and only if none of the lines ended
      in a carriage return already, as long as each has room for one more. */
  lemma {:induction false} LineEndingsDoNotMatter(text: Line)
    requires forall i :: 0 <= i < |Split(text)| - 1 ==> |Split(text)[i]| < LINE_LIMIT
    ensures LinesFrom(ToCrlf(text), 0) == LinesFrom(text, 0) <==>
              forall i :: 0 <= i < |Split(text)| - 1 ==> !EndsInReturn(Split(text)[i])
  {
    hide Stored, Split, ToCrlf, LinesFrom, EndsInReturn, AllStored, WithReturns, TailWithin;
    LinesAreStored(text, 0);
    LinesAreStored(ToCrlf(text), 0);
    assert text[0..] == text && ToCrlf(text)[0..] == ToCrlf(text);
    CrlfSplits(text);
    StoredAlike(Split(text), WithReturns(Split(text)));
  }

  lemma StoredAlike(lines: seq<Line>, with: seq<Line>)
    requires |lines| == |with| >= 1 && with[|with| - 1] == lines[|lines| - 1]
    requires forall i :: 0 <= i < |lines| - 1 ==> |lines[i]| < LINE_LIMIT && with[i] == lines[i] + [CARRIAGE_RETURN]
    ensures AllStored(with) == AllStored(lines) <==> forall i :: 0 <= i < |lines| - 1 ==> !EndsInReturn(lines[i])
  {
    hide Stored, EndsInReturn, AllStored, TailWithin;
    forall i | 0 <= i < |lines| - 1 ensures Stored(with[i]) == Stored(lines[i]) <==> !EndsInReturn(lines[i]) {
      ReturnIsDropped(lines[i]);
    }
    if AllStored(with) == AllStored(lines) {
      forall i | 0 <= i < |lines| - 1 ensures !EndsInReturn(lines[i]) {
        assert AllStored(with)[i] == AllStored(lines)[i];
      }
    }
  }
}
