// Compiler ranges to spans of the combined document
// (site/src/scripts/circ-diagnostics.ts).
module Diagnostics {
  import opened Wrappers
  import opened Utf16
  import opened Columns
  import opened SplitFiles
  import opened SplitRoundTrip
  import opened SplitByteExact

  datatype Range = Range(startLine: int, startCol: int, endLine: int, endCol: int)

  datatype Source = Source(fileId: int, path: Text)

  datatype Span = Span(from: int, to: int)

  datatype DocIndex = DocIndex(lines: seq<Text>, starts: seq<nat>, length: nat)

  // "/playground"
  const PLAYGROUND_DIR: Text := [47, 112, 108, 97, 121, 103, 114, 111, 117, 110, 100]

  // ---- the index ---------------------------------------------------------------------

  // Where line `i` starts, each line but the last ending in one newline.
  function Offset(lines: seq<Text>, i: nat): nat
    requires i <= |lines|
  {
    if i == 0 then 0 else Offset(lines, i - 1) + |lines[i - 1]| + 1
  }

  function Offsets(lines: seq<Text>): (starts: seq<nat>)
    ensures |starts| == |lines|
    ensures forall i :: 0 <= i < |lines| ==> starts[i] == Offset(lines, i)
  {
    seq(|lines|, i requires 0 <= i < |lines| => Offset(lines, i))
  }

  function Index(doc: Text): DocIndex {
    DocIndex(SplitLines(doc), Offsets(SplitLines(doc)), |doc|)
  }

  method IndexDoc(doc: Text) returns (index: DocIndex)
    ensures index == Index(doc)
  {
    var lines := SplitLines(doc);
    var starts: seq<nat> := [];
    var offset := 0;
    for i := 0 to |lines|
      invariant starts == Offsets(lines)[..i]
      invariant offset == Offset(lines, i)
    {
      starts := starts + [offset];
      offset := offset + |lines[i]| + 1;
    }
    index := DocIndex(lines, starts, |doc|);
  }

  // `line` stands in the document at `o`, between newlines.
  predicate StandsAt(doc: Text, o: nat, line: Text) {
    && o + |line| <= |doc| && doc[o..o + |line|] == line
    && (o > 0 ==> doc[o - 1] == LF)
    && (o + |line| < |doc| ==> doc[o + |line|] == LF)
  }

  lemma StandsShift(head: Text, tail: Text, o: nat, line: Text)
    requires StandsAt(tail, o, line) && head != [] && head[|head| - 1] == LF
    ensures StandsAt(head + tail, |head| + o, line)
  {
    var n := |head|;
    assert (head + tail)[n + o..n + o + |line|] == tail[o..o + |line|];
  }

  lemma {:induction false} OffsetHead(lines: seq<Text>, i: nat)
    requires 0 < i <= |lines|
    ensures Offset(lines, i) == |lines[0]| + 1 + Offset(lines[1..], i - 1)
  {
    if i > 1 {
      OffsetHead(lines, i - 1);
    }
  }

  // The index is right: every line stands in the document where it says, and the
  // last one ends it.
  lemma {:induction false} LinesStand(lines: seq<Text>, i: nat)
    requires i < |lines|
    ensures StandsAt(JoinLines(lines), Offset(lines, i), lines[i])
    decreases |lines|
  {
    if |lines| > 1 {
      var head, tail := lines[0] + [LF], JoinLines(lines[1..]);
      if i == 0 {
        assert (head + tail)[0..|lines[0]|] == lines[0];
      } else {
        LinesStand(lines[1..], i - 1);
        OffsetHead(lines, i);
        StandsShift(head, tail, Offset(lines[1..], i - 1), lines[i]);
      }
    }
  }

  lemma {:induction false} LastLineEnds(lines: seq<Text>)
    requires lines != []
    ensures Offset(lines, |lines|) == |JoinLines(lines)| + 1
  {
    OffsetHead(lines, |lines|);
    if |lines| > 1 {
      LastLineEnds(lines[1..]);
    }
  }

  lemma LineStands(doc: Text, i: nat)
    requires i < |SplitLines(doc)|
    ensures StandsAt(doc, Offset(SplitLines(doc), i), SplitLines(doc)[i])
  {
    JoinSplitLines(doc);
    LinesStand(SplitLines(doc), i);
  }

  lemma {:induction false} OffsetMonotone(lines: seq<Text>, i: nat, j: nat)
    requires i < j <= |lines|
    ensures Offset(lines, i) + |lines[i]| < Offset(lines, j)
    decreases j
  {
    if i + 1 < j {
      OffsetMonotone(lines, i, j - 1);
    }
  }

  // ---- offsets -----------------------------------------------------------------------

  function ClampLine(lines: seq<Text>, line0: int): (i: nat)
    requires lines != []
    ensures i < |lines|
  {
    if line0 < 0 then 0 else if line0 > |lines| - 1 then |lines| - 1 else line0
  }

  function OffsetAt(lines: seq<Text>, docLine0: int, byteCol1: int): int
    requires lines != []
  {
    var i := ClampLine(lines, docLine0);
    Offset(lines, i) + UnitsBefore(lines[i], byteCol1 - 1)
  }

  method OffsetAtOf(index: DocIndex, docLine0: int, byteCol1: int, ghost doc: Text) returns (offset: int)
    requires index == Index(doc)
    ensures offset == OffsetAt(index.lines, docLine0, byteCol1)
  {
    var line0 := ClampLine(index.lines, docLine0);
    var line := index.lines[line0];
    var col := ByteColToUtf16(line, byteCol1);
    offset := index.starts[line0] + (if col - 1 < |line| then col - 1 else |line|);
    LineStands(doc, line0);
    offset := if offset > index.length then index.length else if offset < 0 then 0 else offset;
  }

  // The line whose text, or whose newline, an offset falls on.
  ghost predicate OnLine(lines: seq<Text>, offset: int, i: nat) {
    i < |lines| && Offset(lines, i) <= offset <= Offset(lines, i) + |lines[i]|
  }

  lemma OnLineUnique(lines: seq<Text>, offset: int, i: nat, j: nat)
    requires OnLine(lines, offset, i) && OnLine(lines, offset, j)
    ensures i == j
  {
    if i < j {
      OffsetMonotone(lines, i, j);
    } else if j < i {
      OffsetMonotone(lines, j, i);
    }
  }

  // The binary search for the line an offset falls on.
  method LineOfOffset(index: DocIndex, offset: int, ghost doc: Text) returns (lo: nat)
    requires index == Index(doc) && 0 <= offset <= |doc|
    ensures OnLine(index.lines, offset, lo)
  {
    var hi := |index.starts| - 1;
    lo := 0;
    ghost var lines := index.lines;
    while lo < hi
      invariant 0 <= lo <= hi < |lines|
      invariant Offset(lines, lo) <= offset
      invariant hi + 1 < |lines| ==> offset < Offset(lines, hi + 1)
    {
      var mid := (lo + hi + 1) / 2;
      if index.starts[mid] <= offset {
        lo := mid;
      } else {
        hi := mid - 1;
      }
    }
    FoundLine(doc, lo, offset);
  }

  lemma FoundLine(doc: Text, lo: nat, offset: int)
    requires lo < |SplitLines(doc)| && Offset(SplitLines(doc), lo) <= offset <= |doc|
    requires lo + 1 < |SplitLines(doc)| ==> offset < Offset(SplitLines(doc), lo + 1)
    ensures OnLine(SplitLines(doc), offset, lo)
  {
    JoinSplitLines(doc);
    LastLineEnds(SplitLines(doc));
  }

  // ---- spans -------------------------------------------------------------------------

  function FileNameFor(sources: seq<Source>, fileId: int): Option<Text> {
    if sources == [] then None
    else if sources[0].fileId == fileId then
      var path, prefix := sources[0].path, PLAYGROUND_DIR + [SLASH];
      if prefix <= path then Some(path[|prefix|..]) else None
    else FileNameFor(sources[1..], fileId)
  }

  function FindSplit(files: seq<SplitFile>, name: Text): Option<SplitFile> {
    if files == [] then None
    else if files[0].name == name then Some(files[0])
    else FindSplit(files[1..], name)
  }

  // How far an empty span is widened: past the next scalar, if there is one.
  function WidenBy(line: Text, col: nat): nat
    requires col <= |line|
  {
    if col == |line| then 0
    else if IsHigh(line[col]) && col + 1 < |line| then 2
    else 1
  }

  function Widening(lines: seq<Text>, from: int, i: nat): nat
    requires OnLine(lines, from, i)
  {
    WidenBy(lines[i], from - Offset(lines, i))
  }

  // A span from `from` to `to`, widened when it would be empty.
  ghost predicate Spans(lines: seq<Text>, from: int, to: int, span: Span) {
    && span.from == from
    && if to > from then span.to == to
       else exists i: nat :: OnLine(lines, from, i) && span.to == from + Widening(lines, from, i)
  }

  // Both ends of a range from document line `base` on.
  ghost predicate IsSpan(lines: seq<Text>, base: nat, range: Range, span: Span)
    requires lines != []
  {
    Spans(lines, OffsetAt(lines, base + range.startLine - 1, range.startCol),
          OffsetAt(lines, base + range.endLine - 1, range.endCol), span)
  }

  // One scalar further, or as far as the line goes.
  method Widened(index: DocIndex, from: int, ghost doc: Text) returns (to: int)
    requires index == Index(doc) && 0 <= from <= |doc|
    ensures exists i: nat :: OnLine(index.lines, from, i) && to == from + Widening(index.lines, from, i)
  {
    var line0 := LineOfOffset(index, from, doc);
    var line := index.lines[line0];
    var col := from - index.starts[line0];
    LineStands(doc, line0);
    to := from;
    if col < |line| {
      var step := if IsHigh(line[col]) && col + 1 < |line| then 2 else 1;
      to := if from + step < index.length then from + step else index.length;
    }
    assert to == from + Widening(index.lines, from, line0);
  }

  method RangeToSpan(index: DocIndex, files: seq<SplitFile>, sources: seq<Source>, fileId: int, range: Range, ghost doc: Text)
    returns (span: Option<Span>)
    requires index == Index(doc)
    ensures var name := FileNameFor(sources, fileId);
            if name.None? || FindSplit(files, name.value).None? then span == None
            else span.Some? && IsSpan(index.lines, FindSplit(files, name.value).value.startLine, range, span.value)
  {
    var name := FileNameFor(sources, fileId);
    if name.None? {
      return None;
    }
    var file := FindSplit(files, name.value);
    if file.None? {
      return None;
    }
    var startLine := file.value.startLine + range.startLine - 1;
    var endLine := file.value.startLine + range.endLine - 1;
    var from := OffsetAtOf(index, startLine, range.startCol, doc);
    var to := OffsetAtOf(index, endLine, range.endCol, doc);
    OffsetInDoc(doc, startLine, range.startCol);
    if to < from {
      to := from;
    }
    if to == from {
      to := Widened(index, from, doc);
    }
    span := Some(Span(from, to));
  }

  // ---- what a span is good for ---------------------------------------------------------

  // Offsets lie in the document and never inside a surrogate pair.
  lemma OffsetInDoc(doc: Text, line0: int, col: int)
    ensures var lines := SplitLines(doc);
            var o := OffsetAt(lines, line0, col);
            && 0 <= o <= |doc| && ScalarBoundary(doc, o)
            && OnLine(lines, o, ClampLine(lines, line0))
  {
    var lines := SplitLines(doc);
    LineStands(doc, ClampLine(lines, line0));
    OffsetOnLine(doc, lines, line0, col);
  }

  lemma OffsetOnLine(doc: Text, lines: seq<Text>, line0: int, col: int)
    requires lines != [] && var i := ClampLine(lines, line0); StandsAt(doc, Offset(lines, i), lines[i])
    ensures var o := OffsetAt(lines, line0, col);
            0 <= o <= |doc| && ScalarBoundary(doc, o) && OnLine(lines, o, ClampLine(lines, line0))
  {
    var i := ClampLine(lines, line0);
    OffsetInLine(doc, lines[i], Offset(lines, i), col);
  }

  lemma OffsetInLine(doc: Text, line: Text, o: nat, col: int)
    requires StandsAt(doc, o, line)
    ensures var k := UnitsBefore(line, col - 1); k <= |line| && o + k <= |doc| && ScalarBoundary(doc, o + k)
  {
    ColumnIsFirstReaching(line, col - 1);
    BoundaryInLine(doc, o, line, UnitsBefore(line, col - 1));
  }

  lemma BoundaryInLine(doc: Text, o: nat, line: Text, k: nat)
    requires StandsAt(doc, o, line) && ScalarBoundary(line, k)
    ensures o + k <= |doc| && ScalarBoundary(doc, o + k)
  {
    if 0 < k < |line| {
      assert line[k] == doc[o + k];
      assert line[k - 1] == doc[o + k - 1];
    }
  }

  // The span lies in the document, is never backwards, and, in a well-formed
  // document, splits no surrogate pair at either end.
  lemma SpanIsSound(doc: Text, base: nat, range: Range, span: Span)
    requires IsSpan(SplitLines(doc), base, range, span)
    ensures 0 <= span.from <= span.to <= |doc|
    ensures ScalarBoundary(doc, span.from)
    ensures WellFormed(doc) ==> ScalarBoundary(doc, span.to)
  {
    var lines := SplitLines(doc);
    OffsetInDoc(doc, base + range.startLine - 1, range.startCol);
    OffsetInDoc(doc, base + range.endLine - 1, range.endCol);
    SpansAreSound(doc, lines, OffsetAt(lines, base + range.startLine - 1, range.startCol),
                  OffsetAt(lines, base + range.endLine - 1, range.endCol), span);
  }

  lemma SpansAreSound(doc: Text, lines: seq<Text>, from: int, to: int, span: Span)
    requires lines == SplitLines(doc)
    requires ScalarBoundary(doc, from) && ScalarBoundary(doc, to) && Spans(lines, from, to, span)
    ensures 0 <= span.from <= span.to <= |doc|
    ensures ScalarBoundary(doc, span.from)
    ensures WellFormed(doc) ==> ScalarBoundary(doc, span.to)
  {
    if to <= from {
      var i: nat :| OnLine(lines, from, i) && span.to == from + Widening(lines, from, i);
      LineStands(doc, i);
      WidenedSpan(doc, lines, i, from);
    }
  }

  lemma WidenedSpan(doc: Text, lines: seq<Text>, i: nat, from: nat)
    requires OnLine(lines, from, i) && StandsAt(doc, Offset(lines, i), lines[i]) && ScalarBoundary(doc, from)
    ensures from + Widening(lines, from, i) <= |doc|
    ensures WellFormed(doc) ==> ScalarBoundary(doc, from + Widening(lines, from, i))
  {
    WidenedExactly(doc, Offset(lines, i), lines[i], from);
    if WellFormed(doc) {
      WellFormedNeverStrands(doc, Offset(lines, i), lines[i], from);
    }
  }

  // An unpaired high surrogate right before a pair: the step over it is taken for
  // a pair and lands inside the next one.
  predicate Strands(line: Text, col: nat) {
    col + 2 < |line| && IsHigh(line[col]) && IsHigh(line[col + 1]) && IsLow(line[col + 2])
  }

  // In any document the widened end splits a pair exactly there.
  lemma WidenedExactly(doc: Text, o: nat, line: Text, from: nat)
    requires StandsAt(doc, o, line) && o <= from <= o + |line| && ScalarBoundary(doc, from)
    ensures from + WidenBy(line, from - o) <= |doc|
    ensures ScalarBoundary(doc, from + WidenBy(line, from - o)) <==> !Strands(line, from - o)
  {
    var col := from - o;
    if col < |line| {
      assert line[col] == doc[from];
      assert col + 1 < |line| ==> line[col + 1] == doc[from + 1];
      assert col + 2 < |line| ==> line[col + 2] == doc[from + 2];
    }
  }

  lemma WellFormedNeverStrands(doc: Text, o: nat, line: Text, from: nat)
    requires StandsAt(doc, o, line) && o <= from <= o + |line| && ScalarBoundary(doc, from) && WellFormed(doc)
    ensures !Strands(line, from - o)
  {
    var col := from - o;
    WellFormedCut(doc, from);
    if col + 1 < |line| {
      assert line[col] == doc[from] && line[col + 1] == doc[from + 1];
      assert doc[from..][0] == doc[from] && doc[from..][1] == doc[from + 1];
    }
  }

  // ---- one file of many ------------------------------------------------------------------

  // `part` is the lines of `lines` from `s` on.
  predicate LinesAt(lines: seq<Text>, s: nat, part: seq<Text>) {
    s + |part| <= |lines| && lines[s..s + |part|] == part
  }

  lemma {:induction false} OffsetInPart(lines: seq<Text>, s: nat, part: seq<Text>, i: nat)
    requires LinesAt(lines, s, part) && i <= |part|
    ensures Offset(lines, s + i) == Offset(lines, s) + Offset(part, i)
  {
    if i > 0 {
      OffsetInPart(lines, s, part, i - 1);
      assert lines[s..s + |part|][i - 1] == lines[s + i - 1];
    }
  }

  lemma OffsetAtInPart(lines: seq<Text>, s: nat, part: seq<Text>, line0: int, col: int)
    requires LinesAt(lines, s, part) && 0 <= line0 < |part|
    ensures OffsetAt(lines, s + line0, col) == Offset(lines, s) + OffsetAt(part, line0, col)
  {
    OffsetInPart(lines, s, part, line0);
    assert lines[s..s + |part|][line0] == lines[s + line0];
  }

  lemma OnLineInPart(lines: seq<Text>, s: nat, part: seq<Text>, from: int, i: nat)
    requires LinesAt(lines, s, part) && OnLine(part, from, i)
    ensures OnLine(lines, Offset(lines, s) + from, s + i)
    ensures Widening(lines, Offset(lines, s) + from, s + i) == Widening(part, from, i)
  {
    OffsetInPart(lines, s, part, i);
    assert lines[s..s + |part|][i] == lines[s + i];
  }

  lemma WideningInPart(lines: seq<Text>, s: nat, part: seq<Text>, from: int, i: nat, j: nat)
    requires LinesAt(lines, s, part) && OnLine(part, from, i) && OnLine(lines, Offset(lines, s) + from, j)
    ensures Widening(lines, Offset(lines, s) + from, j) == Widening(part, from, i)
  {
    OnLineInPart(lines, s, part, from, i);
    OnLineUnique(lines, Offset(lines, s) + from, j, s + i);
  }

  lemma SpansInPart(lines: seq<Text>, s: nat, part: seq<Text>, from: int, to: int, span: Span, local: Span)
    requires LinesAt(lines, s, part)
    requires Spans(lines, Offset(lines, s) + from, Offset(lines, s) + to, span) && Spans(part, from, to, local)
    ensures span == Span(local.from + Offset(lines, s), local.to + Offset(lines, s))
  {
    if to <= from {
      var i: nat :| OnLine(part, from, i) && local.to == from + Widening(part, from, i);
      var j: nat :| OnLine(lines, span.from, j) && span.to == span.from + Widening(lines, span.from, j);
      WideningInPart(lines, s, part, from, i, j);
    }
  }

  lemma SpanInPart(lines: seq<Text>, s: nat, part: seq<Text>, range: Range, span: Span, local: Span)
    requires part != [] && LinesAt(lines, s, part)
    requires 1 <= range.startLine <= |part| && 1 <= range.endLine <= |part|
    requires IsSpan(lines, s, range, span) && IsSpan(part, 0, range, local)
    ensures span == Span(local.from + Offset(lines, s), local.to + Offset(lines, s))
  {
    OffsetAtInPart(lines, s, part, range.startLine - 1, range.startCol);
    OffsetAtInPart(lines, s, part, range.endLine - 1, range.endCol);
    SpansInPart(lines, s, part, OffsetAt(part, range.startLine - 1, range.startCol),
                OffsetAt(part, range.endLine - 1, range.endCol), span, local);
  }

  lemma BodyLines(all: seq<Line>, o: Open)
    requires InPlace(all, o) && Read(o.body) && o.body != []
    ensures LinesAt(Texts(all), o.startLine, SplitLines(o.Closed().body))
  {
    ClosedLines(o);
    var body := SplitLines(o.Closed().body);
    assert Texts(ReadLines(o.Closed().body)) == body;
    assert Texts(all)[o.startLine..o.startLine + |o.body|] == Texts(o.body);
  }

  // The lines of a split file are its source's lines from its start line on, but
  // for a file opened by the very last line.
  lemma FileLines(doc: Text, k: nat)
    requires k < |Split(doc)| && Split(doc)[k].startLine < |SplitLines(doc)|
    ensures LinesAt(SplitLines(doc), Split(doc)[k].startLine, SplitLines(Split(doc)[k].body))
  {
    var all := ReadLines(doc);
    SplitInPlace(doc, k);
    BodyLines(all, SplitOpens(all)[k]);
    assert Texts(all) == SplitLines(doc);
  }

  lemma SplitInPlace(doc: Text, k: nat)
    requires k < |Split(doc)|
    ensures var all := ReadLines(doc);
            var o := SplitOpens(all)[k];
            && Split(doc)[k] == o.Closed() && InPlace(all, o) && Read(o.body)
            && (o.startLine < |all| ==> o.body != [])
  {
    var all := ReadLines(doc);
    OpensInPlace(all);
    ReadLinesRead(doc);
    OpensTidy(all);
    TidyInPlace(all, SplitOpens(all), k);
  }

  lemma TidyInPlace(all: seq<Line>, opens: seq<Open>, k: nat)
    requires k < |opens| && AllTidy(opens) && AllInPlace(all, opens)
    ensures InPlace(all, opens[k]) && Read(opens[k].body) && (opens[k].startLine < |all| ==> opens[k].body != [])
  {
    assert Tidy(opens[k]);
    if k < |opens| - 1 {
      assert HasContent(opens[k].body);
    }
  }

  lemma {:induction false} FindDistinct(files: seq<SplitFile>, k: nat)
    requires k < |files| && forall j :: 0 <= j < k ==> files[j].name != files[k].name
    ensures FindSplit(files, files[k].name) == Some(files[k])
  {
    if k > 0 {
      assert files[1..][k - 1] == files[k];
      assert forall j :: 0 <= j < k - 1 ==> files[1..][j] == files[j + 1];
      FindDistinct(files[1..], k - 1);
    }
  }

  // A range inside one file maps into the combined document as it maps into the
  // file alone, moved by where the file's first line starts.
  lemma SpanIsShifted(doc: Text, k: nat, range: Range, span: Span, local: Span)
    requires k < |Split(doc)| && Split(doc)[k].startLine < |SplitLines(doc)|
    requires forall j :: 0 <= j < k ==> Split(doc)[j].name != Split(doc)[k].name
    requires 1 <= range.startLine <= |SplitLines(Split(doc)[k].body)|
    requires 1 <= range.endLine <= |SplitLines(Split(doc)[k].body)|
    requires IsSpan(SplitLines(doc), FindDistinct(Split(doc), k); FindSplit(Split(doc), Split(doc)[k].name).value.startLine, range, span)
    requires IsSpan(SplitLines(Split(doc)[k].body), 0, range, local)
    ensures var start := Offset(SplitLines(doc), Split(doc)[k].startLine);
            span == Span(local.from + start, local.to + start)
  {
    FileLines(doc, k);
    FindDistinct(Split(doc), k);
    SpanInPart(SplitLines(doc), Split(doc)[k].startLine, SplitLines(Split(doc)[k].body), range, span, local);
  }
}
