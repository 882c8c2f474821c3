/** What the log buffer holds: always the longest suffix of everything appended that fits. */
module RuntimeLogBufferProofs {
  import opened RuntimeLogModel

  function Bytes(lines: seq<Line>): nat {
    if lines == [] then 0 else Cost(lines[0]) + Bytes(lines[1..])
  }

  predicate Fits(lines: seq<Line>) { |lines| <= MAX_LINES && Bytes(lines) <= MAX_BYTES }

  /** `kept` is the longest suffix of `all` within both limits. */
  ghost predicate LongestFit(all: seq<Line>, kept: seq<Line>) {
    && |kept| <= |all| && kept == all[|all| - |kept|..] && Fits(kept)
    && forall k :: 0 <= k < |all| - |kept| ==> !Fits(all[k..])
  }

  lemma BytesAppend(lines: seq<Line>, line: Line)
    ensures Bytes(lines + [line]) == Bytes(lines) + Cost(line)
  {
    if lines != [] {
      assert (lines + [line])[1..] == lines[1..] + [line];
      BytesAppend(lines[1..], line);
    }
  }

  lemma RoomForOne(lines: seq<Line>, line: Line)
    requires Cost(line) <= MAX_BYTES
    ensures Fits(lines + [line]) <==> |lines| < MAX_LINES && Bytes(lines) + Cost(line) <= MAX_BYTES
    ensures lines == [] ==> Fits(lines + [line])
  {
    BytesAppend(lines, line);
  }

  /** Eviction drops from the front exactly until one more line of this cost fits. */
  lemma EvictMeaning(b: Buffer, line: Line)
    requires b.bytes == Bytes(b.lines) && Cost(line) <= MAX_BYTES
    ensures var e := Evict(b, Cost(line));
            && |e.lines| <= |b.lines| && e.lines == b.lines[|b.lines| - |e.lines|..]
            && e.bytes == Bytes(e.lines) && e.End() == b.End()
            && Fits(e.lines + [line])
            && forall k :: 0 <= k < |b.lines| - |e.lines| ==> !Fits(b.lines[k..] + [line])
    decreases |b.lines|
  {
    hide Fits, Bytes;
    RoomForOne(b.lines, line);
    if b.lines != [] && (|b.lines| >= MAX_LINES || b.bytes + Cost(line) > MAX_BYTES) {
      BytesFront(b.lines);
      EvictMeaning(Buffer(b.lines[1..], b.bytes - Cost(b.lines[0]), b.first + 1), line);
      EvictedAll(b.lines, Evict(b, Cost(line)).lines, line);
    } else {
      assert b.lines[0..] == b.lines;
    }
  }

  lemma BytesFront(lines: seq<Line>)
    requires lines != []
    ensures Bytes(lines[1..]) == Bytes(lines) - Cost(lines[0])
  {
  }

  lemma EvictedAll(lines: seq<Line>, kept: seq<Line>, line: Line)
    requires lines != [] && |kept| <= |lines| - 1 && kept == lines[1..][|lines| - 1 - |kept|..]
    requires !Fits(lines + [line])
    requires forall k :: 0 <= k < |lines| - 1 - |kept| ==> !Fits(lines[1..][k..] + [line])
    ensures kept == lines[|lines| - |kept|..]
    ensures forall k :: 0 <= k < |lines| - |kept| ==> !Fits(lines[k..] + [line])
  {
    hide Fits;
    forall k | 0 <= k < |lines| - |kept| ensures !Fits(lines[k..] + [line]) {
      if k == 0 { assert lines[0..] == lines; } else { assert lines[k..] == lines[1..][k - 1..]; }
    }
  }

  /** Adding a line to a sequence that does not fit does not make it fit. */
  lemma StillTooMuch(lines: seq<Line>, line: Line)
    requires !Fits(lines)
    ensures !Fits(lines + [line])
  {
    BytesAppend(lines, line);
  }

  lemma PushKeepsLongestFit(all: seq<Line>, b: Buffer, line: Line)
    requires LongestFit(all, b.lines) && b.bytes == Bytes(b.lines) && Cost(line) <= MAX_BYTES
    ensures var b' := Push(b, line);
            LongestFit(all + [line], b'.lines) && b'.bytes == Bytes(b'.lines) && b'.End() == b.End() + 1
  {
    hide Evict, Fits, Bytes;
    EvictMeaning(b, line);
    var e := Evict(b, Cost(line));
    BytesAppend(e.lines, line);
    var all', kept := all + [line], e.lines + [line];
    var base := |all| - |b.lines|;
    forall k | 0 <= k < |all'| - |kept| ensures !Fits(all'[k..]) {
      assert all'[k..] == all[k..] + [line];
      if k < base {
        StillTooMuch(all[k..], line);
      } else {
        assert all[k..] == b.lines[k - base..];
      }
    }
    assert all'[|all'| - |kept|..] == kept;
  }

  lemma LinesAreShort(text: Line, begin: nat)
    requires begin <= |text|
    ensures forall line :: line in LinesFrom(text, begin) ==> Cost(line) <= MAX_BYTES
    ensures LinesFrom(text, begin) != []
    decreases |text| - begin
  {
  }

  lemma {:induction false} PushAllKeepsLongestFit(all: seq<Line>, b: Buffer, lines: seq<Line>)
    requires LongestFit(all, b.lines) && b.bytes == Bytes(b.lines)
    requires forall line :: line in lines ==> Cost(line) <= MAX_BYTES
    ensures var b' := PushAll(b, lines);
            LongestFit(all + lines, b'.lines) && b'.bytes == Bytes(b'.lines) && b'.End() == b.End() + |lines|
    decreases |lines|
  {
    hide LongestFit, Push, Bytes;
    if lines == [] {
      assert all + lines == all;
    } else {
      PushKeepsLongestFit(all, b, lines[0]);
      PushAllKeepsLongestFit(all + [lines[0]], Push(b, lines[0]), lines[1..]);
      assert all + lines == all + [lines[0]] + lines[1..];
    }
  }

  /** One append keeps the buffer the longest fitting suffix, its byte count exact and its line
      numbers counting every line ever appended. */
  lemma AppendKeepsLongestFit(all: seq<Line>, b: Buffer, text: Line)
    requires LongestFit(all, b.lines) && b.bytes == Bytes(b.lines)
    ensures var b' := Append(b, text);
            && LongestFit(all + LinesFrom(text, 0), b'.lines) && b'.bytes == Bytes(b'.lines)
            && b'.End() == b.End() + |LinesFrom(text, 0)|
  {
    LinesAreShort(text, 0);
    PushAllKeepsLongestFit(all, b, LinesFrom(text, 0));
  }

  // ---- Any sequence of appends ----

  function AppendAll(b: Buffer, texts: seq<Line>): Buffer
    decreases |texts|
  {
    if texts == [] then b else AppendAll(Append(b, texts[0]), texts[1..])
  }

  function AllLines(texts: seq<Line>): seq<Line>
    decreases |texts|
  {
    if texts == [] then [] else LinesFrom(texts[0], 0) + AllLines(texts[1..])
  }

  lemma {:induction false} AppendAllKeepsLongestFit(all: seq<Line>, b: Buffer, texts: seq<Line>)
    requires LongestFit(all, b.lines) && b.bytes == Bytes(b.lines)
    ensures var b' := AppendAll(b, texts);
            && LongestFit(all + AllLines(texts), b'.lines) && b'.bytes == Bytes(b'.lines)
            && b'.End() == b.End() + |AllLines(texts)|
    decreases |texts|
  {
    hide LongestFit, Append, Bytes, LinesFrom;
    if texts == [] {
      assert all + [] == all;
    } else {
      AppendKeepsLongestFit(all, b, texts[0]);
      AppendAllKeepsLongestFit(all + LinesFrom(texts[0], 0), Append(b, texts[0]), texts[1..]);
      assert all + AllLines(texts) == all + LinesFrom(texts[0], 0) + AllLines(texts[1..]);
    }
  }

  /** After a clear and then any appends, the buffer holds exactly the longest suffix of the split
      lines within 4096 lines and 4 MiB, counts its bytes exactly, and numbers its lines on from
      everything ever appended. */
  lemma BufferHoldsTheLongestSuffix(before: Buffer, texts: seq<Line>)
    ensures var b := AppendAll(Clear(before), texts);
            && LongestFit(AllLines(texts), b.lines)
            && b.bytes == Bytes(b.lines)
            && b.first + |b.lines| == before.End() + |AllLines(texts)|
  {
    AppendAllKeepsLongestFit([], Clear(before), texts);
    assert [] + AllLines(texts) == AllLines(texts);
  }

  /** The longest fitting suffix is one sequence only. */
  lemma LongestFitIsUnique(all: seq<Line>, a: seq<Line>, b: seq<Line>)
    requires LongestFit(all, a) && LongestFit(all, b)
    ensures a == b
  {
  }

  // ---- Splitting loses nothing of ordinary text ----

  lemma JoinOne(line: Line)
    ensures Join([line]) == line
  {
  }

  lemma {:induction false} JoinFront(line: Line, rest: seq<Line>)
    requires rest != []
    ensures Join([line] + rest) == line + [NEWLINE] + Join(rest)
    decreases |rest|
  {
    hide Join;
    var n := |rest|;
    JoinLast([line] + rest);
    JoinLast(rest);
    if n == 1 {
      assert ([line] + rest)[..1] == [line];
      JoinOne(line);
    } else {
      assert ([line] + rest)[..n] == [line] + rest[..n - 1];
      JoinFront(line, rest[..n - 1]);
    }
  }

  lemma JoinLast(lines: seq<Line>)
    requires lines != []
    ensures Join(lines) == if |lines| == 1 then lines[0] else Join(lines[..|lines| - 1]) + [NEWLINE] + lines[|lines| - 1]
  {
  }

  predicate AtLineStart(text: Line, begin: nat) {
    begin <= |text| && (begin == 0 || text[begin - 1] == NEWLINE)
  }

  function LineEnd(text: Line, begin: nat): (end: nat)
    requires begin <= |text|
    ensures begin <= end <= |text|
  {
    var newline := IndexOfNewline(text, begin);
    if newline < 0 then |text| else newline
  }

  /** A line short enough to be kept, that does not begin with half a surrogate pair or end with a
      carriage return. */
  predicate KeptWhole(text: Line, begin: nat, end: nat)
    requires begin <= end <= |text|
  {
    end - begin <= MAX_BYTES / 2 - 1 && (begin < end ==> !(0xDC00 <= text[begin] <= 0xDFFF) && text[end - 1] != 13)
  }

  ghost predicate AllKeptWhole(text: Line, begin: nat) {
    forall b :: begin <= b && AtLineStart(text, b) ==> KeptWhole(text, b, LineEnd(text, b))
  }

  lemma StoredWhole(text: Line, begin: nat, end: nat)
    requires begin <= end <= |text|
    ensures |StoredLine(text, begin, end)| <= end - begin
    ensures KeptWhole(text, begin, end) <==> |StoredLine(text, begin, end)| == end - begin
    ensures KeptWhole(text, begin, end) <==> StoredLine(text, begin, end) == text[begin..end]
  {
  }

  lemma SplitAt(text: Line, begin: nat, at: nat)
    requires begin <= at < |text|
    ensures text[begin..] == text[begin..at] + [text[at]] + text[at + 1..]
  {
  }

  /** The lines of a text are the first one and those after its newline. */
  lemma KeptWholeFrom(text: Line, begin: nat)
    requires AtLineStart(text, begin)
    ensures var newline := IndexOfNewline(text, begin);
            AllKeptWhole(text, begin) <==>
              KeptWhole(text, begin, LineEnd(text, begin)) && (newline >= 0 ==> AllKeptWhole(text, newline + 1))
  {
    hide KeptWhole;
    var newline := IndexOfNewline(text, begin);
    forall b | begin < b && AtLineStart(text, b) ensures newline >= 0 && b >= newline + 1 {
      assert text[b - 1] == NEWLINE;
    }
  }

  /** A text splits into lines that join back to it if and only if each of its lines is kept whole. */
  lemma {:induction false} LinesJoinBack(text: Line, begin: nat)
    requires AtLineStart(text, begin)
    ensures |Join(LinesFrom(text, begin))| <= |text| - begin
    ensures Join(LinesFrom(text, begin)) == text[begin..] <==> AllKeptWhole(text, begin)
    decreases |text| - begin
  {
    hide StoredLine, Join, IndexOfNewline, KeptWhole, AllKeptWhole;
    var newline := IndexOfNewline(text, begin);
    KeptWholeFrom(text, begin);
    if newline < 0 {
      StoredWhole(text, begin, |text|);
      assert text[begin..|text|] == text[begin..];
      JoinOne(StoredLine(text, begin, |text|));
    } else {
      LinesJoinBack(text, newline + 1);
      LinesAreShort(text, newline + 1);
      StoredWhole(text, begin, newline);
      var line, rest := StoredLine(text, begin, newline), LinesFrom(text, newline + 1);
      JoinFront(line, rest);
      SplitAt(text, begin, newline);
      if Join([line] + rest) == text[begin..] {
        SameSplit(line, Join(rest), text[begin..newline], text[newline + 1..]);
      }
    }
  }

  /** Equal texts with a newline in the middle, neither half longer than the other's, agree half by half. */
  lemma SameSplit(a: Line, b: Line, c: Line, d: Line)
    requires a + [NEWLINE] + b == c + [NEWLINE] + d && |a| <= |c| && |b| <= |d|
    ensures a == c && b == d
  {
    var s, t := a + [NEWLINE] + b, c + [NEWLINE] + d;
    assert |s| == |a| + 1 + |b| && |t| == |c| + 1 + |d|;
    assert a == s[..|a|] && c == t[..|c|];
    assert b == s[|a| + 1..] && d == t[|c| + 1..];
  }
}
