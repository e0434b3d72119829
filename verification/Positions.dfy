// Where a place told in lines and bytes is in a document
// (site/src/utils/columns.ts, site/src/scripts/circ-diagnostics.ts).
module Positions {
  import opened Numbers
  import opened Wrappers
  import opened Utf16
  import opened Columns
  import opened SplitFiles
  import opened Diagnostics

  // ---- UTF-8 -------------------------------------------------------------------------------

  // The first code point; an unpaired surrogate is encoded as U+FFFD.
  function CodePoint(s: Text): nat
    requires s != []
  {
    if UnitsOf(s) == 2 then 0x10000 + (s[0] as int - 0xD800) * 0x400 + (s[1] as int - 0xDC00)
    else if IsHigh(s[0]) || IsLow(s[0]) then 0xFFFD
    else s[0]
  }

  // The bits of a code point that fit an encoding of `n` bytes: seven in one, and in
  // more those the lead byte has left and six in each that follows.
  function PayloadBits(n: nat): nat
    requires 1 <= n <= 4
  {
    if n == 1 then 7 else (8 - (n + 1)) + 6 * (n - 1)
  }

  lemma Powers()
    ensures Pow(2, 7) == 0x80 && Pow(2, 11) == 0x800 && Pow(2, 16) == 0x10000 && Pow(2, 21) == 0x200000
  {
    assert Pow(2, 4) == 16;
    PowAdd(2, 4, 3);
    PowAdd(2, 7, 4);
    PowAdd(2, 11, 5);
    assert Pow(2, 5) == 32;
    PowAdd(2, 16, 5);
  }

  // As many bytes as the code point needs and no more.
  lemma BytesNeeded(s: Text)
    requires s != []
    ensures CodePoint(s) < Pow(2, PayloadBits(BytesOf(s)))
    ensures BytesOf(s) > 1 ==> CodePoint(s) >= Pow(2, PayloadBits(BytesOf(s) - 1))
  {
    Powers();
    assert PayloadBits(1) == 7 && PayloadBits(2) == 11 && PayloadBits(3) == 16 && PayloadBits(4) == 21;
  }

  // ---- offsets -----------------------------------------------------------------------------

  // Line `i`, in front of its unit `k`, as the compiler counts: columns are bytes
  // from one.
  predicate PointsAt(lines: seq<Text>, line0: int, col1: int, i: nat, k: nat) {
    && i < |lines| && ScalarBoundary(lines[i], k) && k <= |lines[i]|
    && line0 == i && col1 == 1 + Utf8Length(lines[i][..k])
  }

  lemma OffsetPoints(lines: seq<Text>, line0: int, col1: int, i: nat, k: nat)
    requires PointsAt(lines, line0, col1, i, k)
    ensures OffsetAt(lines, line0, col1) == Offset(lines, i) + k
  {
    ColumnInvertsPrefix(lines[i], k);
  }

  // What is out of range counts as the first or the last line, as the start of the
  // line or its end.
  lemma OffsetClamps(lines: seq<Text>, line0: int, col1: int)
    requires lines != []
    ensures line0 < 0 ==> OffsetAt(lines, line0, col1) == OffsetAt(lines, 0, col1)
    ensures line0 >= |lines| ==> OffsetAt(lines, line0, col1) == OffsetAt(lines, |lines| - 1, col1)
    ensures 0 <= line0 < |lines| && col1 <= 1 ==> OffsetAt(lines, line0, col1) == Offset(lines, line0)
    ensures 0 <= line0 < |lines| && col1 > Utf8Length(lines[line0]) ==>
            OffsetAt(lines, line0, col1) == Offset(lines, line0) + |lines[line0]|
  {
    if 0 <= line0 < |lines| && col1 > Utf8Length(lines[line0]) {
      PastTheEnd(lines[line0], col1 - 1);
    }
  }

  lemma {:induction false} PastTheEnd(s: Text, target: int)
    requires target >= Utf8Length(s)
    ensures UnitsBefore(s, target) == |s|
  {
    if s != [] {
      PastTheEnd(s[UnitsOf(s)..], target - BytesOf(s));
    }
  }

  // ---- spans -------------------------------------------------------------------------------

  // The units of the scalar in front of which a place is; none where its line ends.
  function ScalarAt(line: Text, k: nat): nat
    requires k <= |line|
  {
    if k == |line| then 0 else if IsHigh(line[k]) && k + 1 < |line| then 2 else 1
  }

  // A range between two places of a file whose text starts at line `base` becomes the
  // offsets of those places; one that is empty or backwards takes in the scalar it
  // starts at.
  lemma SpanPoints(doc: Text, base: nat, range: Range, span: Span, i: nat, a: nat, j: nat, b: nat)
    requires var lines := SplitLines(doc);
             && IsSpan(lines, base, range, span)
             && PointsAt(lines, base + range.startLine - 1, range.startCol, i, a)
             && PointsAt(lines, base + range.endLine - 1, range.endCol, j, b)
    ensures var lines := SplitLines(doc);
            var from, to := Offset(lines, i) + a, Offset(lines, j) + b;
            span.from == from && span.to == if to > from then to else from + ScalarAt(lines[i], a)
  {
    var lines := SplitLines(doc);
    OffsetPoints(lines, base + range.startLine - 1, range.startCol, i, a);
    OffsetPoints(lines, base + range.endLine - 1, range.endCol, j, b);
    SpanFrom(lines, Offset(lines, i) + a, Offset(lines, j) + b, span, i, a);
  }

  lemma SpanFrom(lines: seq<Text>, from: int, to: int, span: Span, i: nat, a: nat)
    requires Spans(lines, from, to, span) && i < |lines| && a <= |lines[i]| && from == Offset(lines, i) + a
    ensures span.from == from && span.to == if to > from then to else from + ScalarAt(lines[i], a)
  {
    if to <= from {
      var h: nat :| OnLine(lines, from, h) && span.to == from + Widening(lines, from, h);
      OnLineUnique(lines, from, h, i);
    }
  }

  // ---- files -------------------------------------------------------------------------------

  // The playground's own directory, in front of a file's name.
  predicate PathOf(path: Text, name: Text) {
    |path| == 12 + |name| && path[12..] == name && forall k :: 0 <= k < 12 ==> path[k] == "/playground/"[k] as int
  }

  lemma PrefixIs(path: Text)
    ensures PLAYGROUND_DIR + [SLASH] <= path <==> |path| >= 12 && PathOf(path, path[12..])
  {
    var prefix := PLAYGROUND_DIR + [SLASH];
    assert |prefix| == 12;
    assert forall k :: 0 <= k < 12 ==> prefix[k] == "/playground/"[k] as int;
    if |path| >= 12 && PathOf(path, path[12..]) {
      assert path[..12] == prefix;
    }
  }

  // A file of the page is the name after its directory in the first source of that
  // number, and any other source names none.
  lemma {:induction false} FileNameIs(sources: seq<Source>, fileId: int, name: Text)
    ensures FileNameFor(sources, fileId) == Some(name) <==>
            exists k :: 0 <= k < |sources| && sources[k].fileId == fileId && PathOf(sources[k].path, name)
                        && forall j :: 0 <= j < k ==> sources[j].fileId != fileId
  {
    if sources != [] {
      PrefixIs(sources[0].path);
      if sources[0].fileId != fileId {
        FileNameIs(sources[1..], fileId, name);
        ShiftedSource(sources, fileId, name);
      }
    }
  }

  predicate SourceOf(sources: seq<Source>, fileId: int, name: Text, k: int) {
    0 <= k < |sources| && sources[k].fileId == fileId && PathOf(sources[k].path, name)
    && forall j :: 0 <= j < k ==> sources[j].fileId != fileId
  }

  lemma ShiftedSource(sources: seq<Source>, fileId: int, name: Text)
    requires sources != [] && sources[0].fileId != fileId
    ensures (exists k :: SourceOf(sources, fileId, name, k)) <==> exists k :: SourceOf(sources[1..], fileId, name, k)
  {
    if k :| SourceOf(sources, fileId, name, k) {
      assert SourceOf(sources[1..], fileId, name, k - 1);
    }
    if k :| SourceOf(sources[1..], fileId, name, k) {
      assert SourceOf(sources, fileId, name, k + 1);
    }
  }

  // The first file of the name.
  lemma {:induction false} FindSplitIs(files: seq<SplitFile>, name: Text)
    ensures match FindSplit(files, name)
            case None => forall f <- files :: f.name != name
            case Some(f) =>
              exists k :: 0 <= k < |files| && files[k] == f && f.name == name && forall j :: 0 <= j < k ==> files[j].name != name
  {
    if files != [] && files[0].name != name {
      FindSplitIs(files[1..], name);
      match FindSplit(files[1..], name)
      case None => assert files == [files[0]] + files[1..];
      case Some(f) =>
        var k :| 0 <= k < |files[1..]| && files[1..][k] == f && f.name == name
                 && forall j :: 0 <= j < k ==> files[1..][j].name != name;
        assert files[k + 1] == f;
        assert forall j :: 0 < j < k + 1 ==> files[j] == files[1..][j - 1];
    }
  }
}
