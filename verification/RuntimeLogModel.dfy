/** The bounded log buffer and its incremental view, as values. A text is a sequence of UTF-16 units;
    the view's document is a non-empty sequence of blocks. */
module RuntimeLogModel {
  import opened Basics

  const MAX_LINES: nat := 4096
  const MAX_BYTES: nat := 4 * 1024 * 1024
  const BATCH_LINES: nat := 64
  const BATCH_UNITS: nat := 16 * 1024   // 32 KiB of UTF-16

  type Unit = x: int | 0 <= x < 0x1_0000
  type Line = seq<Unit>

  const NEWLINE: Unit := 10
  const CARRIAGE_RETURN: Unit := 13

  predicate IsHighSurrogate(u: Unit) { 0xD800 <= u < 0xDC00 }
  predicate IsLowSurrogate(u: Unit) { 0xDC00 <= u < 0xE000 }

  /** Units at which a text document starts a new block. */
  predicate IsBlockBreak(u: Unit) { u == NEWLINE || u == CARRIAGE_RETURN || u == 0x2028 || u == 0x2029 }

  predicate Plain(line: Line) { forall i :: 0 <= i < |line| ==> !IsBlockBreak(line[i]) }

  // ---- Splitting a text into stored lines ----

  /** The first newline at or after `from`, or -1. */
  function IndexOfNewline(text: Line, from: nat): (at: int)
    requires from <= |text|
    ensures at == -1 || from <= at < |text|
    ensures at >= 0 ==> text[at] == NEWLINE && forall i :: from <= i < at ==> text[i] != NEWLINE
    ensures at == -1 ==> forall i :: from <= i < |text| ==> text[i] != NEWLINE
    decreases |text| - from
  {
    if from == |text| then -1
    else if text[from] == NEWLINE then from
    else IndexOfNewline(text, from + 1)
  }

  /** What is stored of `text[begin..end]`: at most its last half-buffer of units, not starting inside
      a surrogate pair, without a final carriage return. */
  function StoredLine(text: Line, begin: nat, end: nat): (line: Line)
    requires begin <= end <= |text|
    ensures |line| <= MAX_BYTES / 2 - 1
  {
    var start := Max(begin, end - (MAX_BYTES / 2 - 1));
    var start' := if start < end && IsLowSurrogate(text[start]) then start + 1 else start;
    var line := text[start'..end];
    if line != [] && line[|line| - 1] == CARRIAGE_RETURN then line[..|line| - 1] else line
  }

  function LinesFrom(text: Line, begin: nat): seq<Line>
    requires begin <= |text|
    decreases |text| - begin
  {
    var newline := IndexOfNewline(text, begin);
    if newline < 0 then [StoredLine(text, begin, |text|)]
    else [StoredLine(text, begin, newline)] + LinesFrom(text, newline + 1)
  }

  // ---- The buffer ----

  datatype Buffer = Buffer(lines: seq<Line>, bytes: int, first: nat) {
    function End(): nat { first + |lines| }
  }

  const EMPTY_BUFFER := Buffer([], 0, 0)

  function Cost(line: Line): nat { (|line| + 1) * 2 }

  function Evict(b: Buffer, size: nat): Buffer
    decreases |b.lines|
  {
    if b.lines != [] && (|b.lines| >= MAX_LINES || b.bytes + size > MAX_BYTES) then
      Evict(Buffer(b.lines[1..], b.bytes - Cost(b.lines[0]), b.first + 1), size)
    else b
  }

  function Push(b: Buffer, line: Line): Buffer {
    var e := Evict(b, Cost(line));
    Buffer(e.lines + [line], e.bytes + Cost(line), e.first)
  }

  function PushAll(b: Buffer, lines: seq<Line>): Buffer
    decreases |lines|
  {
    if lines == [] then b else PushAll(Push(b, lines[0]), lines[1..])
  }

  function Append(b: Buffer, text: Line): Buffer { PushAll(b, LinesFrom(text, 0)) }

  function Clear(b: Buffer): Buffer { Buffer([], 0, b.End()) }

  /** The lines joined by newlines. */
  function Join(lines: seq<Line>): Line {
    if lines == [] then []
    else if |lines| == 1 then lines[0]
    else Join(lines[..|lines| - 1]) + [NEWLINE] + lines[|lines| - 1]
  }

  // ---- The document ----

  type Document = seq<Line>

  /** Typing one unit at the end. */
  function InsertUnit(doc: Document, u: Unit): (r: Document)
    requires doc != []
    ensures r != []
  {
    if IsBlockBreak(u) then doc + [[]]
    else doc[..|doc| - 1] + [doc[|doc| - 1] + [u]]
  }

  function InsertText(doc: Document, text: Line): (r: Document)
    requires doc != []
    ensures r != []
    decreases |text|
  {
    if text == [] then doc else InsertText(InsertUnit(doc, text[0]), text[1..])
  }

  predicate IsEmptyDocument(doc: Document) { |doc| == 1 && |doc[0]| == 0 }

  /** Appends as a paragraph of its own, or into the first block of an empty document. */
  function AppendPlainText(doc: Document, text: Line): (r: Document)
    requires doc != []
    ensures r != []
  {
    if IsEmptyDocument(doc) then InsertText(doc, text) else InsertText(doc + [[]], text)
  }

  /** The maximum block count drops blocks from the front. */
  function Capped(doc: Document): Document {
    if |doc| > MAX_LINES then doc[|doc| - MAX_LINES..] else doc
  }

  // ---- The view ----

  datatype View = View(doc: Document, next: nat, displayedFirst: int, offset: nat, hasText: bool)

  function Reset(b: Buffer): View { View([[]], b.first, b.first, 0, false) }

  const NEW_VIEW := View([[]], 0, 0, 0, false)

  /** A batch being collected: its text, the next line and offset after it, and the lines it completed. */
  datatype Batch = Batch(text: Line, next: nat, offset: nat, hasText: bool, completed: nat)

  /** As many units as are available, but not half a surrogate pair. */
  function UnitsTaken(line: Line, offset: nat, available: nat): (take: nat)
    requires offset <= |line|
    ensures take <= available && offset + take <= |line|
  {
    var take := Min(available, |line| - offset);
    if take > 0 && offset + take < |line| && IsHighSurrogate(line[offset + take - 1]) then take - 1 else take
  }

  function Available(g: Batch): int {
    BATCH_UNITS - |g.text| - (if g.offset == 0 && g.hasText then 1 else 0)
  }

  predicate BatchGoesOn(b: Buffer, g: Batch)
    requires b.first <= g.next <= b.End()
    requires g.next < b.End() ==> g.offset <= |b.lines[g.next - b.first]|
  {
    && g.next < b.End() && g.completed < BATCH_LINES && Available(g) > 0
    && var line := b.lines[g.next - b.first];
       !(UnitsTaken(line, g.offset, Available(g)) == 0 && g.offset < |line|)
  }

  function AddToBatch(b: Buffer, g: Batch): (r: Batch)
    requires b.first <= g.next <= b.End()
    requires g.next < b.End() ==> g.offset <= |b.lines[g.next - b.first]|
    requires BatchGoesOn(b, g)
  {
    var line := b.lines[g.next - b.first];
    var take := UnitsTaken(line, g.offset, Available(g));
    var text := g.text + (if g.offset == 0 && g.hasText then [NEWLINE] else []) + line[g.offset..g.offset + take];
    if g.offset + take == |line| then Batch(text, g.next + 1, 0, true, g.completed + 1)
    else Batch(text, g.next, g.offset + take, true, g.completed)
  }

  function CollectBatch(b: Buffer, g: Batch): Batch
    requires b.first <= g.next <= b.End()
    requires g.next < b.End() ==> g.offset <= |b.lines[g.next - b.first]|
    decreases b.End() - g.next, if g.next < b.End() then |b.lines[g.next - b.first]| - g.offset else 0
  {
    if BatchGoesOn(b, g) then CollectBatch(b, AddToBatch(b, g)) else g
  }

  /** What holds of a view between two operations, as far as a flush needs it to be meaningful. */
  predicate Flushable(b: Buffer, v: View) {
    && v.doc != [] && v.next <= b.End()
    && (b.first <= v.next < b.End() ==> v.offset <= |b.lines[v.next - b.first]|)
    && (b.first <= v.next && !(v.next == b.first && v.offset == 0) && v.displayedFirst < b.first ==>
          b.first - v.displayedFirst < |v.doc|)
  }

  /** Dropping what has expired: everything if nothing shown is still held, or the expired blocks. */
  function DropExpired(b: Buffer, v: View): (r: View)
    requires Flushable(b, v)
    ensures r.doc != [] && b.first <= r.next <= b.End()
    ensures r.next < b.End() ==> r.offset <= |b.lines[r.next - b.first]|
  {
    if v.next < b.first || (v.next == b.first && v.offset == 0) then Reset(b)
    else if v.displayedFirst < b.first && |b.lines| < MAX_LINES then
      v.(doc := v.doc[b.first - v.displayedFirst..], displayedFirst := b.first)
    else v
  }

  function InsertBatch(v: View, text: Line): (doc: Document)
    requires v.doc != []
    ensures doc != []
  {
    var continuing := v.offset != 0;
    var separator := v.hasText && !continuing;
    if !continuing && !(separator && IsEmptyDocument(v.doc)) then
      AppendPlainText(v.doc, if separator && text != [] then text[1..] else text)
    else InsertText(v.doc, text)
  }

  function Flush(b: Buffer, v: View): View
    requires Flushable(b, v)
  {
    if v.next == b.End() && v.displayedFirst == b.first then v
    else
      var v1 := DropExpired(b, v);
      var g := CollectBatch(b, Batch([], v1.next, v1.offset, v1.hasText, 0));
      var doc := Capped(InsertBatch(v1, g.text));
      View(doc, g.next, g.next + (if g.offset != 0 then 1 else 0) - |doc|, g.offset, g.hasText)
  }
}
